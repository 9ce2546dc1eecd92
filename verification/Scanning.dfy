/** The two derivations of a line's blocks in the compact assembler: pass 1 scans the operands as
    they are spelled (host/dmaasm/dmaasm.go), pass 2 looks at the pointers it emits
    (host/dmaasm/compact.go). */
module Scanning {
  import opened Words
  import opened Core
  import opened Planner
  import opened Compact
  import opened Macros
  import opened Layouts
  import Chip
  import Wiring
  import Banks
  import Refinement
  import Rules
  import opened Passes

  // ----- source lines -----

  /** An operand as parsed: a symbol or a pooled literal, each a cell, a register by its name or an
      absolute address. */
  datatype Operand = Symbol(cell: int) | Literal(cell: int) | Register(addr: Word) | Absolute(addr: Word)

  datatype Arith = ADD | SUB | OR | XOR | ANDN | AND

  datatype Test = JEQ | JLT | JLTU

  /** An instruction line. Jump targets are label addresses. */
  datatype Line =
    | Arith3(op: Arith, a: Operand, b: Operand, d: Operand)
    | Shl(a: Operand, d: Operand)
    | Mulc(a: Operand, k: Word, d: Operand)
    | Jneg(a: Operand, neg: Word, nonneg: Word)
    | Jbool(a: Operand, zero: Word, one: Word)
    | Jsign(a: Operand)
    | Jtest(test: Test, a: Operand, b: Operand)
    | JumpTo(to: Word)
    | Jumpr(a: Operand)
    | Call(to: Word)
    | Ret
    | Safepoint
    | Gpio(word: Word, reg: Word)
    | Move(a: Operand, d: Operand, fl: Rules.MoveFlags)
    | Nop
    | Stop

  const PC: Word := 0x5000_01C0

  function SniffAddr(v: Chip.Variant): Word {
    Chip.DMA + v.SniffDataOff()
  }

  /** What is at a bus address, in the compact channel map. */
  function LocAt(v: Chip.Variant, x: Word): Loc {
    if x == SniffAddr(v) then Acc
    else if x == SniffAddr(v) + 0x1000 then AccXor
    else if x == SniffAddr(v) + 0x2000 then AccSet
    else if x == SniffAddr(v) + 0x3000 then AccClr
    else if x == Chip.DMA + v.SniffCtrlOff() then SniffCtl
    else if x == PC then Pc
    else if x == PC + Wiring.R_AL3_WRITE then Window
    else if Chip.DMA <= x < PC && (x - Chip.DMA) % 0x40 == Wiring.R_AL2_COUNT then Count((x - Chip.DMA) / 0x40)
    else Mem(x)
  }

  /** It is the location with that address. */
  lemma LocatedAt(S: Banks.Setup, x: Word)
    requires S.Ok()
    ensures Wiring.Addr(S.AsRig(), LocAt(S.v, x)) == x
  {
  }

  /** The assembler's registers: the pooled cells and the cells of three named ones. */
  datatype Ctx = Ctx(v: Chip.Variant, r: Regs, lr: int, irq: int, dispatch: int) {
    function At(o: Operand): Loc {
      match o
      case Symbol(c) => Mem(c)
      case Literal(c) => Mem(c)
      case Register(x) => LocAt(v, x)
      case Absolute(x) => LocAt(v, x)
    }
  }

  /** The flags of a move are ones the parser takes and some bank serves. */
  predicate Taken(l: Line) {
    l.Move? ==>
      Rules.FlagsTaken(Macros.Compact, l.fl) &&
      Rules.BankFor(Rules.FieldSize(Macros.Compact, l.fl), l.fl.sniff, l.fl.bswap, l.fl.incrR, l.fl.incrW) >= 0
  }

  /** Pass 1 has pooled the literals the line names, its generated label and its jump pair. */
  predicate Pooled(K: Ctx, l: Line, gen: Word, pair: Word) {
    && Rules.PoolHas(Macros.Compact, K.r) && gen in K.r.env.lits && pair in K.r.env.lits
    && match l
       case Jneg(_, x, y) => x in K.r.env.lits && y in K.r.env.lits
       case Jbool(_, x, y) => x in K.r.env.lits && y in K.r.env.lits
       case JumpTo(x) => x in K.r.env.lits
       case Call(x) => x in K.r.env.lits
       case Gpio(x, _) => x in K.r.env.lits
       case _ => true
  }

  /** The macro a line is, over the locations its operands resolve to. */
  function MacroOf(K: Ctx, l: Line, gen: Word, pair: Word): (m: Rules.Macro)
    requires Taken(l) && Pooled(K, l, gen, pair)
    ensures Rules.Named(K.r, m)
  {
    match l
    case Arith3(op, a, b, d) =>
      (match op
       case ADD => Rules.Add(K.At(a), K.At(b), K.At(d))
       case SUB => Rules.Sub(K.At(a), K.At(b), K.At(d))
       case OR => Rules.Or(K.At(a), K.At(b), K.At(d))
       case XOR => Rules.Xor(K.At(a), K.At(b), K.At(d))
       case ANDN => Rules.AndNot(K.At(a), K.At(b), K.At(d))
       case AND => Rules.And(K.At(a), K.At(b), K.At(d)))
    case Shl(a, d) => Rules.Shl(K.At(a), K.At(d))
    case Mulc(a, k, d) => Rules.Mulc(K.At(a), k, K.At(d))
    case Jneg(a, neg, nonneg) => Rules.Jneg(K.At(a), K.r.Lit(gen), nonneg, neg)
    case Jbool(a, zero, one) => Rules.Jbool(K.At(a), K.r.Lit(gen), zero, one)
    case Jsign(a) => Rules.Jsign(K.At(a), K.r.Lit(pair))
    case Jtest(t, a, b) =>
      (match t
       case JEQ => Rules.Jeq(K.At(a), K.At(b), K.r.Lit(pair))
       case JLT => Rules.Jlt(K.At(a), K.At(b), K.r.Lit(pair))
       case JLTU => Rules.Jltu(K.At(a), K.At(b), K.r.Lit(pair)))
    case JumpTo(x) => Rules.JumpTo(x)
    case Jumpr(a) => Rules.Jumpr(K.At(a))
    case Call(x) => Rules.Call(x, gen, Mem(K.lr))
    case Ret => Rules.Ret(Mem(K.lr))
    case Safepoint => Rules.Safepoint(gen, Mem(K.irq), Mem(K.dispatch))
    case Gpio(x, reg) => Rules.Gpio(x, LocAt(K.v, reg))
    case Move(a, d, fl) => Rules.MoveTo(K.At(a), K.At(d), fl)
    case Nop => Rules.Nop
    case Stop => Rules.Halt
  }

  /** The blocks pass 2 emits. */
  function BlocksOf(K: Ctx, l: Line, gen: Word, pair: Word): (bs: seq<Block>)
    requires Taken(l) && Pooled(K, l, gen, pair)
  {
    Rules.Expand(Macros.Compact, K.r, MacroOf(K, l, gen, pair))
  }

  // ----- pass 1: shapes from operands -----

  predicate IsPc(o: Operand) {
    o == Register(PC)
  }

  predicate IsSniff(v: Chip.Variant, o: Operand) {
    o == Register(SniffAddr(v))
  }

  function Sh(bank: int): Shape {
    Shape(bank, 1, false, false, false, false, 0)
  }

  function Rd(pc: bool): Shape {
    Shape(PLAIN, 1, true, pc, false, false, 0)
  }

  const JMP: Shape := Shape(PLAIN, 1, false, true, false, false, 0)

  function Swap(sniff: bool): Shape {
    Shape(BSWAP, 1, sniff, false, false, false, 0)
  }

  /** The additions and doublings of a product, from bit i down. */
  function MulShapes(k: Word, i: nat, started: bool): seq<Shape> {
    var set1 := Bit(k, i) == 1;
    var here := (if started then [Sh(SNIFF)] else []) + (if set1 then [Sh(SNIFF)] else []);
    if i == 0 then here else here + MulShapes(k, i - 1, started || set1)
  }

  function NegBody(v: Chip.Variant, a: Operand): seq<Shape> {
    [Swap(IsSniff(v, a))] + ([Sh(PLAIN)] + [Sh(SNIFF)] + [Rd(true)])
  }

  function BoolBody(): seq<Shape> {
    [Sh(PLAIN)] + [Sh(SNIFF), Sh(SNIFF), Sh(SNIFF), Sh(SNIFF), Sh(SNIFF)] + [Rd(true)]
  }

  const DIFFERENCE: seq<Shape> := [Sh(PLAIN), Sh(PLAIN)] + [Sh(SNIFF), Sh(SNIFF)]
  const RESEED: seq<Shape> := [Rd(false)] + [Sh(PLAIN)]
  const SIGN_TAIL: seq<Shape> := [Swap(true)] + ([Sh(PLAIN)] + ([Sh(PLAIN)] + [Sh(SNIFF)] + [Rd(true)]))

  /** The shapes of a line, as its operands are spelled. */
  function Scanned(v: Chip.Variant, l: Line): (ss: seq<Shape>)
    requires Taken(l)
  {
    match l
    case Arith3(op, _, _, d) =>
      (match op
       case ADD => [Sh(PLAIN)] + [Sh(SNIFF)] + [Rd(IsPc(d))]
       case SUB => DIFFERENCE + [Rd(IsPc(d))]
       case AND => [Sh(PLAIN), Sh(PLAIN), Rd(false)] + [Sh(PLAIN), Sh(PLAIN), Rd(IsPc(d))]
       case _ => [Sh(PLAIN), Sh(PLAIN), Rd(IsPc(d))])
    case Shl(_, d) => [Sh(PLAIN)] + [Sh(SNIFF)] + [Rd(IsPc(d))]
    case Mulc(_, k, d) => [Sh(PLAIN)] + MulShapes(k, 31, false) + [Rd(IsPc(d))]
    case Jneg(a, _, _) => NegBody(v, a) + [JMP, JMP]
    case Jbool(_, _, _) => BoolBody() + [JMP, JMP]
    case Jsign(a) => NegBody(v, a)
    case Jtest(t, _, _) =>
      if t == JEQ then
        DIFFERENCE + RESEED + [Sh(PLAIN)] + [Sh(SNIFF)] + RESEED + [Sh(PLAIN)] + SIGN_TAIL
      else
        [Sh(PLAIN), Sh(PLAIN), Rd(false)] + DIFFERENCE + RESEED +
        [Sh(PLAIN), Rd(false), Sh(PLAIN), Sh(PLAIN), Sh(PLAIN)] + SIGN_TAIL
    case JumpTo(_) => [JMP]
    case Jumpr(a) => [Shape(PLAIN, 1, IsSniff(v, a), true, false, false, 0)]
    case Call(_) => [Sh(PLAIN), JMP]
    case Ret => [JMP]
    case Safepoint => [Sh(PLAIN), JMP]
    case Gpio(_, _) => [Sh(PLAIN)]
    case Move(a, d, fl) =>
      [Shape(Rules.BankFor(Rules.FieldSize(Macros.Compact, fl), fl.sniff, fl.bswap, fl.incrR, fl.incrW),
             Rules.FieldCount(Macros.Compact, fl), IsSniff(v, a), IsPc(d), fl.dyn, false, 0)]
    case Nop => [Shape(PLAIN, 0, false, false, false, false, 0)]
    case Stop => [Shape(0, 0, false, false, false, true, 0)]
  }

  /** The family pass 1 misreads: the accumulator is read on the sniff bank into the program
      counter, and the program counter is spelled as an absolute address. */
  predicate Misread(l: Line) {
    match l
    case Arith3(op, _, _, d) => (op == ADD || op == SUB) && d == Absolute(PC)
    case Shl(_, d) => d == Absolute(PC)
    case Mulc(_, k, d) => k != 0 && d == Absolute(PC)
    case _ => false
  }

  // ----- plans that agree -----

  const BUSY: PState := CANON.(bank := SNIFF)

  predicate One(s: Shape, bank: int) {
    s.bank == bank && s.count == 1 && !s.dyn && !s.halt && s.cntAfter == 0
  }

  /** From st both passes plan the same records, and end in u. */
  ghost predicate Agree(st: PState, ss: seq<Shape>, bs: seq<Block>, u: PState) {
    && st.Valid() && AllValid(ss) && AllBanked(bs)
    && PlanAll(st, ss) == PlanAll(st, Shapes(bs)) && PlanAll(st, ss).st == u
  }

  lemma {:induction false} PlanJoin(st: PState, xs: seq<Shape>, ys: seq<Shape>)
    requires st.Valid() && AllValid(xs) && AllValid(ys)
    ensures AllValid(xs + ys)
    ensures var p := PlanAll(st, xs);
            var q := PlanAll(p.st, ys);
            PlanAll(st, xs + ys) == Planned(q.st, p.prims + q.prims)
    decreases |xs|
  {
    hide Plan;
    if xs == [] {
      assert xs + ys == ys;
    } else {
      assert (xs + ys)[1..] == xs[1..] + ys;
      PlanJoin(Plan(st, xs[0]).st, xs[1..], ys);
    }
  }

  lemma Joined(st: PState, ss: seq<Shape>, bs: seq<Block>, u: PState, ts: seq<Shape>, cs: seq<Block>, w: PState)
    requires Agree(st, ss, bs, u) && Agree(u, ts, cs, w)
    ensures Agree(st, ss + ts, bs + cs, w)
  {
    hide PlanAll;
    PlanJoin(st, ss, ts);
    PlanJoin(st, Shapes(bs), Shapes(cs));
    assert Shapes(bs + cs) == Shapes(bs) + Shapes(cs);
  }

  lemma Single(st: PState, s: Shape, b: Block)
    requires st.Valid() && s.Valid() && b.Banked() && Plan(st, s) == Plan(st, ShapeOf(b))
    ensures Agree(st, [s], [b], Plan(st, s).st)
  {
    hide Plan, ShapeOf;
    var p := Plan(st, s);
    assert Shapes([b]) == [ShapeOf(b)];
    assert [s][1..] == [] && [ShapeOf(b)][1..] == [];
    assert PlanAll(p.st, []) == Planned(p.st, []) && p.prims + [] == p.prims;
  }

  predicate PlainPair(s: Shape, b: Block) {
    One(s, PLAIN) && b.Block? && b.bank == PLAIN && b.count == 1 && !b.dyn
  }

  predicate SniffPair(s: Shape, b: Block) {
    One(s, SNIFF) && b.Block? && b.bank == SNIFF && b.count == 1 && !b.dyn
  }

  /** On the plain bank neither the source nor the destination matters. */
  lemma {:induction false} Plains(ss: seq<Shape>, bs: seq<Block>)
    requires |ss| == |bs| && forall i :: 0 <= i < |ss| ==> PlainPair(ss[i], bs[i])
    ensures Agree(CANON, ss, bs, CANON)
    decreases |ss|
  {
    if ss != [] {
      assert PlainPair(ss[0], bs[0]);
      assert Plan(CANON, ss[0]) == Planned(CANON, [Rec]) == Plan(CANON, ShapeOf(bs[0]));
      Single(CANON, ss[0], bs[0]);
      Plains(ss[1..], bs[1..]);
      hide PlanAll, Plan, PlainPair;
      Joined(CANON, [ss[0]], [bs[0]], CANON, ss[1..], bs[1..], CANON);
      assert [ss[0]] + ss[1..] == ss && [bs[0]] + bs[1..] == bs;
    } else {
      assert Shapes(bs) == [];
    }
  }

  lemma {:induction false} Sniffs(st: PState, ss: seq<Shape>, bs: seq<Block>)
    requires (st == CANON || st == BUSY) && SniffPairs(ss, bs)
    ensures Agree(st, ss, bs, if ss == [] then st else BUSY)
    decreases |ss|
  {
    if ss != [] {
      assert SniffPair(ss[0], bs[0]);
      assert Plan(st, ss[0]).st == BUSY && Plan(st, ss[0]) == Plan(st, ShapeOf(bs[0]));
      Single(st, ss[0], bs[0]);
      Sniffs(BUSY, ss[1..], bs[1..]);
      hide PlanAll, Plan, SniffPair;
      Joined(st, [ss[0]], [bs[0]], BUSY, ss[1..], bs[1..], BUSY);
      assert [ss[0]] + ss[1..] == ss && [bs[0]] + bs[1..] == bs;
    } else {
      assert Shapes(bs) == [];
    }
  }

  /** A read on the sniff bank: whether it goes to %pc matters. */
  lemma ReadHere(d: Loc)
    ensures Agree(BUSY, [Rd(d == Pc)], [Pl(Acc, d)], if d == Pc then CANON else BUSY)
  {
    Single(BUSY, Rd(d == Pc), Pl(Acc, d));
  }

  lemma LeaveSniff(x: Loc, d: Loc)
    requires x != Acc
    ensures Agree(BUSY, [Sh(PLAIN)], [Pl(x, d)], CANON)
  {
    Single(BUSY, Sh(PLAIN), Pl(x, d));
  }

  lemma SwapHere(sniff: bool, x: Loc, d: Loc)
    ensures Agree(CANON, [Swap(sniff)], [Bs(x, d)], CANON)
  {
    Single(CANON, Swap(sniff), Bs(x, d));
  }

  // ----- line by line -----

  ghost predicate SniffPairs(ss: seq<Shape>, bs: seq<Block>) {
    |ss| == |bs| && forall j :: 0 <= j < |ss| ==> SniffPair(ss[j], bs[j])
  }

  lemma {:induction false} MulAgree(r: Regs, a: Loc, k: Word, i: nat, started: bool)
    ensures SniffPairs(MulShapes(k, i, started), MulSteps(r, a, k, i, started))
    ensures MulShapes(k, i, started) == [] <==> !started && NoneSet(k, i)
    decreases i
  {
    hide Bit;
    var set1 := Bit(k, i) == 1;
    var ss := (if started then [Sh(SNIFF)] else []) + (if set1 then [Sh(SNIFF)] else []);
    var bs := (if started then [Sn(r, Acc)] else []) + (if set1 then [Sn(r, a)] else []);
    assert SniffPairs(ss, bs);
    if i > 0 {
      MulAgree(r, a, k, i - 1, started || set1);
      PairsJoin(ss, bs, MulShapes(k, i - 1, started || set1), MulSteps(r, a, k, i - 1, started || set1));
      hide SniffPairs;
      assert MulShapes(k, i, started) == ss + MulShapes(k, i - 1, started || set1);
      assert MulSteps(r, a, k, i, started) == bs + MulSteps(r, a, k, i - 1, started || set1);
    }
  }

  lemma PairsJoin(ss: seq<Shape>, bs: seq<Block>, ts: seq<Shape>, cs: seq<Block>)
    requires SniffPairs(ss, bs) && SniffPairs(ts, cs)
    ensures SniffPairs(ss + ts, bs + cs)
  {
    hide SniffPair;
  }

  predicate NoneSet(k: Word, i: nat) {
    Bit(k, i) != 1 && (i > 0 ==> NoneSet(k, i - 1))
  }

  lemma {:induction false} NoneSetAt(k: Word, i: nat, j: nat)
    requires NoneSet(k, i) && j <= i
    ensures Bit(k, j) == 0
  {
    if j < i { NoneSetAt(k, i - 1, j); }
  }

  lemma {:induction false} ZeroNone(i: nat)
    ensures NoneSet(0, i)
  {
    ZeroBit(i);
    if i > 0 { ZeroNone(i - 1); }
  }

  lemma NoBits(k: Word)
    ensures k == 0 <==> NoneSet(k, 31)
  {
    Pow2At32();
    ZeroNone(31);
    if NoneSet(k, 31) {
      forall j: nat | j < 32 ensures Bit(k, j) == Bit(0, j) { ZeroBit(j); NoneSetAt(k, 31, j); }
      BitsEqual(k, 0, 32);
    }
  }

  lemma {:induction false} ZeroBit(j: nat)
    ensures Bit(0, j) == 0
  {
    if j > 0 { ZeroBit(j - 1); }
  }

  /** What ends a line: plans that agree, or a read that pass 1 sizes one record short. */
  ghost predicate Verdict(ss: seq<Shape>, bs: seq<Block>, misread: bool) {
    && AllValid(ss) && AllBanked(bs)
    && if misread then |Instr(Shapes(bs))| == |Instr(ss)| + 1 else Instr(Shapes(bs)) == Instr(ss)
  }

  lemma Agreed(ss: seq<Shape>, bs: seq<Block>, u: PState)
    requires Agree(CANON, ss, bs, u)
    ensures Verdict(ss, bs, false)
  {
    hide PlanAll, Sync;
  }

  /** The last read of a sum. */
  lemma LastRead(K: Ctx, ss: seq<Shape>, bs: seq<Block>, d: Operand)
    requires Agree(CANON, ss, bs, BUSY)
    ensures Verdict(ss + [Rd(IsPc(d))], bs + [Pl(Acc, K.At(d))], d == Absolute(PC))
  {
    var x := K.At(d);
    var s, b := Rd(IsPc(d)), Pl(Acc, x);
    assert x == Pc <==> IsPc(d) || d == Absolute(PC);
    if d != Absolute(PC) {
      ReadHere(x);
      Joined(CANON, ss, bs, BUSY, [s], [b], if x == Pc then CANON else BUSY);
      Agreed(ss + [s], bs + [b], if x == Pc then CANON else BUSY);
    } else {
      var p := PlanAll(CANON, ss);
      PlanJoin(CANON, ss, [s]);
      PlanJoin(CANON, Shapes(bs), [ShapeOf(b)]);
      assert Shapes(bs + [b]) == Shapes(bs) + [ShapeOf(b)];
      OnePlan(BUSY, s); OnePlan(BUSY, ShapeOf(b));
      assert Plan(BUSY, s) == Planned(BUSY, [Rec]);
      assert Plan(BUSY, ShapeOf(b)) == Planned(CANON, [StageRead, Switch(PLAIN), StagePush]);
      NothingStale(CANON, BANKS);
      BusySync();
      hide PlanAll, Plan, Sync;
      assert Instr(ss + [s]) == p.prims + [Rec] + Sync(BUSY);
      assert Instr(Shapes(bs + [b])) == p.prims + [StageRead, Switch(PLAIN), StagePush] + Sync(CANON);
    }
  }

  lemma OnePlan(st: PState, s: Shape)
    requires st.Valid() && s.Valid()
    ensures PlanAll(st, [s]) == Plan(st, s)
  {
    hide Plan;
    var p := Plan(st, s);
    assert [s][1..] == [];
    assert PlanAll(p.st, []) == Planned(p.st, []) && p.prims + [] == p.prims;
  }

  lemma BusySync()
    ensures |Sync(BUSY)| == 1 && |Sync(CANON)| == 0
  {
    NothingStale(CANON, BANKS);
    NothingStale(BUSY, BANKS);
  }

  lemma Sum(K: Ctx, a: Loc, b: Loc, d: Operand)
    ensures Verdict([Sh(PLAIN)] + [Sh(SNIFF)] + [Rd(IsPc(d))], AddM(K.r, a, b, K.At(d)), d == Absolute(PC))
  {
    hide Verdict, Agree;
    Plains([Sh(PLAIN)], [Pl(a, Acc)]);
    Sniffs(CANON, [Sh(SNIFF)], [Sn(K.r, b)]);
    Joined(CANON, [Sh(PLAIN)], [Pl(a, Acc)], CANON, [Sh(SNIFF)], [Sn(K.r, b)], BUSY);
    LastRead(K, [Sh(PLAIN)] + [Sh(SNIFF)], [Pl(a, Acc)] + [Sn(K.r, b)], d);
    assert [Pl(a, Acc)] + [Sn(K.r, b)] + [Pl(Acc, K.At(d))] == AddM(K.r, a, b, K.At(d));
  }

  lemma DifferenceAgrees(r: Regs, a: Loc, b: Loc)
    requires ONES in r.env.lits && 1 in r.env.lits
    ensures Agree(CANON, DIFFERENCE, SubInto(r, a, b), BUSY)
  {
    hide Agree;
    Plains([Sh(PLAIN), Sh(PLAIN)], [Pl(b, Acc), Pl(r.Lit(ONES), AccXor)]);
    Sniffs(CANON, [Sh(SNIFF), Sh(SNIFF)], [Sn(r, r.Lit(1)), Sn(r, a)]);
    Joined(CANON, [Sh(PLAIN), Sh(PLAIN)], [Pl(b, Acc), Pl(r.Lit(ONES), AccXor)], CANON,
           [Sh(SNIFF), Sh(SNIFF)], [Sn(r, r.Lit(1)), Sn(r, a)], BUSY);
  }

  lemma Product(K: Ctx, a: Loc, k: Word, d: Operand)
    ensures Verdict([Sh(PLAIN)] + MulShapes(k, 31, false) + [Rd(IsPc(d))],
                    MulcM(Macros.Compact, K.r, a, k, K.At(d)), k != 0 && d == Absolute(PC))
  {
    hide Verdict, Agree;
    var x, ms, bs := Pl(Mem(K.r.zero), Acc), MulShapes(k, 31, false), MulSteps(K.r, a, k, 31, false);
    MulAgree(K.r, a, k, 31, false);
    NoBits(k);
    Plains([Sh(PLAIN)], [x]);
    Sniffs(CANON, ms, bs);
    if k != 0 {
      Joined(CANON, [Sh(PLAIN)], [x], CANON, ms, bs, BUSY);
      LastRead(K, [Sh(PLAIN)] + ms, [x] + bs, d);
    } else {
      assert ms == [] && bs == [];
      Joined(CANON, [Sh(PLAIN)], [x], CANON, ms, bs, CANON);
      Plains([Rd(IsPc(d))], [Pl(Acc, K.At(d))]);
      Joined(CANON, [Sh(PLAIN)] + ms, [x] + bs, CANON, [Rd(IsPc(d))], [Pl(Acc, K.At(d))], CANON);
      Agreed([Sh(PLAIN)] + ms + [Rd(IsPc(d))], [x] + bs + [Pl(Acc, K.At(d))], CANON);
    }
  }

  /** A mask, a sum and a dispatch from the plain bank. */
  lemma DispatchAgrees(r: Regs, x: Loc, y: Loc)
    ensures Agree(CANON, [Sh(PLAIN)] + [Sh(SNIFF)] + [Rd(true)], [Pl(x, AccClr)] + [Sn(r, y)] + [Pl(Acc, Pc)], CANON)
  {
    hide Agree;
    Plains([Sh(PLAIN)], [Pl(x, AccClr)]);
    Sniffs(CANON, [Sh(SNIFF)], [Sn(r, y)]);
    Joined(CANON, [Sh(PLAIN)], [Pl(x, AccClr)], CANON, [Sh(SNIFF)], [Sn(r, y)], BUSY);
    ReadHere(Pc);
    Joined(CANON, [Sh(PLAIN)] + [Sh(SNIFF)], [Pl(x, AccClr)] + [Sn(r, y)], BUSY, [Rd(true)], [Pl(Acc, Pc)], CANON);
  }

  lemma NegAgrees(r: Regs, v: Chip.Variant, a: Operand, x: Loc, m: Loc, y: Loc)
    ensures Agree(CANON, NegBody(v, a), [Bs(x, Acc)] + [Pl(m, AccClr), Sn(r, y), Pl(Acc, Pc)], CANON)
  {
    hide Agree;
    SwapHere(IsSniff(v, a), x, Acc);
    DispatchAgrees(r, m, y);
    var tail := [Pl(m, AccClr)] + [Sn(r, y)] + [Pl(Acc, Pc)];
    Joined(CANON, [Swap(IsSniff(v, a))], [Bs(x, Acc)], CANON, [Sh(PLAIN)] + [Sh(SNIFF)] + [Rd(true)], tail, CANON);
    assert tail == [Pl(m, AccClr), Sn(r, y), Pl(Acc, Pc)];
  }

  lemma BoolAgrees(r: Regs, x: Loc, y: Loc)
    ensures Agree(CANON, BoolBody(), JboolM(Macros.Compact, r, x, y), CANON)
  {
    hide Agree;
    var z := Pl(Mem(r.zero), Acc);
    var ss, bs := [Sh(SNIFF), Sh(SNIFF), Sh(SNIFF), Sh(SNIFF), Sh(SNIFF)],
      [Sn(r, x), Sn(r, Acc), Sn(r, Acc), Sn(r, Acc), Sn(r, y)];
    Plains([Sh(PLAIN)], [z]);
    Sniffs(CANON, ss, bs);
    Joined(CANON, [Sh(PLAIN)], [z], CANON, ss, bs, BUSY);
    ReadHere(Pc);
    Joined(CANON, [Sh(PLAIN)] + ss, [z] + bs, BUSY, [Rd(true)], [Pl(Acc, Pc)], CANON);
    assert [z] + bs + [Pl(Acc, Pc)] == JboolM(Macros.Compact, r, x, y);
  }

  lemma ReseedAgrees(c: int, c': int)
    ensures Agree(BUSY, RESEED, [Pl(Acc, Mem(c))] + [Pl(Mem(c'), Acc)], CANON)
  {
    hide Agree;
    ReadHere(Mem(c));
    LeaveSniff(Mem(c'), Acc);
    Joined(BUSY, [Rd(false)], [Pl(Acc, Mem(c))], BUSY, [Sh(PLAIN)], [Pl(Mem(c'), Acc)], CANON);
  }

  lemma TailAgrees(r: Regs, pair: Loc)
    requires 0xFFFFFF7F in r.env.lits
    ensures Agree(CANON, SIGN_TAIL, Swapped(Macros.Compact, r) + SignTail(Macros.Compact, r, pair), CANON)
  {
    hide Agree;
    var at, m := Mem(r.env.at), r.Lit(0xFFFFFF7F);
    var tail := [Pl(m, AccClr)] + [Sn(r, pair)] + [Pl(Acc, Pc)];
    DispatchAgrees(r, m, pair);
    Plains([Sh(PLAIN)], [Pl(at, Acc)]);
    Joined(CANON, [Sh(PLAIN)], [Pl(at, Acc)], CANON, [Sh(PLAIN)] + [Sh(SNIFF)] + [Rd(true)], tail, CANON);
    SwapHere(true, Acc, at);
    Joined(CANON, [Swap(true)], [Bs(Acc, at)], CANON,
           [Sh(PLAIN)] + ([Sh(PLAIN)] + [Sh(SNIFF)] + [Rd(true)]), [Pl(at, Acc)] + tail, CANON);
    assert [Pl(at, Acc)] + tail == SignTail(Macros.Compact, r, pair);
  }

  lemma JeqAgrees(r: Regs, a: Loc, b: Loc, pair: Loc)
    requires ONES in r.env.lits && 1 in r.env.lits && 0xFFFFFF7F in r.env.lits
    ensures Agree(CANON, DIFFERENCE + RESEED + [Sh(PLAIN)] + [Sh(SNIFF)] + RESEED + [Sh(PLAIN)] + SIGN_TAIL,
                  JeqM(Macros.Compact, r, a, b, pair), CANON)
  {
    hide Agree;
    var at, at2 := r.env.at, r.at2;
    var s1, b1 := DIFFERENCE + RESEED, SubInto(r, a, b) + ([Pl(Acc, Mem(at))] + [Pl(Mem(at), Acc)]);
    DifferenceAgrees(r, a, b);
    ReseedAgrees(at, at);
    Joined(CANON, DIFFERENCE, SubInto(r, a, b), BUSY, RESEED, [Pl(Acc, Mem(at))] + [Pl(Mem(at), Acc)], CANON);
    var x, y := Pl(r.Lit(ONES), AccXor), Sn(r, r.Lit(1));
    Plains([Sh(PLAIN)], [x]);
    Sniffs(CANON, [Sh(SNIFF)], [y]);
    Joined(CANON, s1, b1, CANON, [Sh(PLAIN)], [x], CANON);
    Joined(CANON, s1 + [Sh(PLAIN)], b1 + [x], CANON, [Sh(SNIFF)], [y], BUSY);
    var s2, b2 := s1 + [Sh(PLAIN)] + [Sh(SNIFF)], b1 + [x] + [y];
    var z := [Pl(Acc, Mem(at2))] + [Pl(Mem(at2), Acc)];
    ReseedAgrees(at2, at2);
    Joined(CANON, s2, b2, BUSY, RESEED, z, CANON);
    Plains([Sh(PLAIN)], [Pl(Mem(at), AccSet)]);
    Joined(CANON, s2 + RESEED, b2 + z, CANON, [Sh(PLAIN)], [Pl(Mem(at), AccSet)], CANON);
    var tail := Swapped(Macros.Compact, r) + SignTail(Macros.Compact, r, pair);
    TailAgrees(r, pair);
    Joined(CANON, s2 + RESEED + [Sh(PLAIN)], b2 + z + [Pl(Mem(at), AccSet)], CANON, SIGN_TAIL, tail, CANON);
    hide SubInto, Swapped, SignTail;
    assert b2 + z + [Pl(Mem(at), AccSet)] + tail == JeqM(Macros.Compact, r, a, b, pair);
  }

  lemma OrderedAgrees(r: Regs, a: Loc, b: Loc, x: Block, y: Block, z: Block, w: Block, pair: Loc)
    requires ONES in r.env.lits && 1 in r.env.lits && 0xFFFFFF7F in r.env.lits
    requires PlainPair(Sh(PLAIN), x) && PlainPair(Sh(PLAIN), y) && PlainPair(Sh(PLAIN), z) && PlainPair(Sh(PLAIN), w)
    ensures Agree(CANON, [Sh(PLAIN), Sh(PLAIN), Rd(false)] + DIFFERENCE + RESEED +
                    [Sh(PLAIN), Rd(false), Sh(PLAIN), Sh(PLAIN), Sh(PLAIN)] + SIGN_TAIL,
                  Ordered(Macros.Compact, r, a, b, [x, y], [z, w], pair), CANON)
  {
    hide Agree;
    var at, at2 := r.env.at, r.at2;
    var s0, b0 := [Sh(PLAIN), Sh(PLAIN), Rd(false)], [x, y, Pl(Acc, Mem(at))];
    Plains(s0, b0);
    DifferenceAgrees(r, a, b);
    Joined(CANON, s0, b0, CANON, DIFFERENCE, SubInto(r, a, b), BUSY);
    var q := [Pl(Acc, Mem(at2))] + [Pl(Mem(at2), Acc)];
    ReseedAgrees(at2, at2);
    Joined(CANON, s0 + DIFFERENCE, b0 + SubInto(r, a, b), BUSY, RESEED, q, CANON);
    var s1, b1 := [Sh(PLAIN), Rd(false), Sh(PLAIN), Sh(PLAIN), Sh(PLAIN)],
      [Pl(Mem(at), AccClr), Pl(Acc, Mem(at2)), z, w, Pl(Mem(at2), AccSet)];
    Plains(s1, b1);
    Joined(CANON, s0 + DIFFERENCE + RESEED, b0 + SubInto(r, a, b) + q, CANON, s1, b1, CANON);
    var tail := Swapped(Macros.Compact, r) + SignTail(Macros.Compact, r, pair);
    TailAgrees(r, pair);
    Joined(CANON, s0 + DIFFERENCE + RESEED + s1, b0 + SubInto(r, a, b) + q + b1, CANON, SIGN_TAIL, tail, CANON);
    hide SubInto, Swapped, SignTail, PlainPair;
    assert b0 + SubInto(r, a, b) + q + b1 + tail == Ordered(Macros.Compact, r, a, b, [x, y], [z, w], pair);
  }

  lemma TestVerdict(K: Ctx, l: Line, gen: Word, pair: Word)
    requires Taken(l) && Pooled(K, l, gen, pair) && l.Jtest?
    ensures Verdict(Scanned(K.v, l), BlocksOf(K, l, gen, pair), false)
  {
    var r, a, b, p := K.r, K.At(l.a), K.At(l.b), K.r.Lit(pair);
    match l.test
    case JEQ =>
      JeqAgrees(r, a, b, p);
    case JLT =>
      OrderedAgrees(r, a, b, Pl(a, Acc), Pl(b, AccXor), Pl(a, Acc), Pl(b, AccClr), p);
    case JLTU =>
      OrderedAgrees(r, a, b, Pl(a, Acc), Pl(b, AccClr), Pl(b, Acc), Pl(a, AccClr), p);
    hide Agree, Verdict, JeqM, Ordered;
    Agreed(Scanned(K.v, l), BlocksOf(K, l, gen, pair), CANON);
  }

  /** Blocks of the plain bank only. */
  lemma PlainVerdict(ss: seq<Shape>, bs: seq<Block>)
    requires |ss| == |bs| && forall i :: 0 <= i < |ss| ==> PlainPair(ss[i], bs[i])
    ensures Verdict(ss, bs, false)
  {
    hide PlainPair, Agree, Verdict;
    Plains(ss, bs);
    Agreed(ss, bs, CANON);
  }

  lemma OneVerdict(s: Shape, b: Block)
    requires s.Valid() && b.Banked() && Plan(CANON, s) == Plan(CANON, ShapeOf(b))
    ensures Verdict([s], [b], false)
  {
    hide Plan, Agree, Verdict;
    Single(CANON, s, b);
    Agreed([s], [b], Plan(CANON, s).st);
  }

  lemma ArithVerdict(K: Ctx, l: Line, gen: Word, pair: Word)
    requires Taken(l) && Pooled(K, l, gen, pair) && l.Arith3?
    ensures Verdict(Scanned(K.v, l), BlocksOf(K, l, gen, pair), Misread(l))
  {
    hide Verdict, Agree;
    var r, a, b, d := K.r, K.At(l.a), K.At(l.b), K.At(l.d);
    match l.op
    case ADD => Sum(K, a, b, l.d);
    case SUB =>
      DifferenceAgrees(r, a, b);
      LastRead(K, DIFFERENCE, SubInto(r, a, b), l.d);
    case AND =>
      PlainVerdict(Scanned(K.v, l), AndM(r, a, b, d));
    case OR => PlainVerdict(Scanned(K.v, l), OrM(a, b, d));
    case XOR => PlainVerdict(Scanned(K.v, l), XorM(a, b, d));
    case ANDN => PlainVerdict(Scanned(K.v, l), AndNotM(a, b, d));
  }

  lemma NegVerdict(K: Ctx, l: Line, gen: Word, pair: Word)
    requires Taken(l) && Pooled(K, l, gen, pair) && (l.Jneg? || l.Jbool? || l.Jsign?)
    ensures Verdict(Scanned(K.v, l), BlocksOf(K, l, gen, pair), false)
  {
    hide Verdict, Agree;
    var r, x := K.r, K.At(l.a);
    if l.Jsign? {
      var m, p := r.Lit(0xFFFFFF7F), r.Lit(pair);
      NegAgrees(r, K.v, l.a, x, m, p);
      assert BlocksOf(K, l, gen, pair) == [Bs(x, Acc)] + [Pl(m, AccClr), Sn(r, p), Pl(Acc, Pc)];
      Agreed(Scanned(K.v, l), BlocksOf(K, l, gen, pair), CANON);
    } else {
      var slots := if l.Jneg? then Rules.SlotsM(r, l.nonneg, l.neg) else Rules.SlotsM(r, l.zero, l.one);
      var ss := if l.Jneg? then NegBody(K.v, l.a) else BoolBody();
      var bs := if l.Jneg? then JnegM(Macros.Compact, r, x, r.Lit(gen)) else JboolM(Macros.Compact, r, x, r.Lit(gen));
      if l.Jneg? {
        NegAgrees(r, K.v, l.a, x, r.Lit(JnegMask(Macros.Compact)), r.Lit(gen));
      } else {
        BoolAgrees(r, x, r.Lit(gen));
      }
      Plains([JMP, JMP], slots);
      Joined(CANON, ss, bs, CANON, [JMP, JMP], slots, CANON);
      Agreed(ss + [JMP, JMP], bs + slots, CANON);
    }
  }

  /** Both passes plan the same records for a line exactly when pass 1 reads it right; a misread
      line is sized one record short. */
  lemma ScanExact(K: Ctx, l: Line, gen: Word, pair: Word)
    requires Taken(l) && Pooled(K, l, gen, pair)
    ensures AllValid(Scanned(K.v, l)) && AllBanked(BlocksOf(K, l, gen, pair))
    ensures Instr(Scanned(K.v, l)) == Instr(Shapes(BlocksOf(K, l, gen, pair))) <==> !Misread(l)
    ensures Misread(l) ==> |Instr(Shapes(BlocksOf(K, l, gen, pair)))| == |Instr(Scanned(K.v, l))| + 1
  {
    LineVerdict(K, l, gen, pair);
  }

  lemma LineVerdict(K: Ctx, l: Line, gen: Word, pair: Word)
    requires Taken(l) && Pooled(K, l, gen, pair)
    ensures Verdict(Scanned(K.v, l), BlocksOf(K, l, gen, pair), Misread(l))
  {
    hide Verdict;
    var r, ss, bs := K.r, Scanned(K.v, l), BlocksOf(K, l, gen, pair);
    match l
    case Arith3(_, _, _, _) => ArithVerdict(K, l, gen, pair);
    case Shl(a, d) => Sum(K, K.At(a), K.At(a), d);
    case Mulc(a, k, d) => Product(K, K.At(a), k, d);
    case Jneg(_, _, _) => NegVerdict(K, l, gen, pair);
    case Jbool(_, _, _) => NegVerdict(K, l, gen, pair);
    case Jsign(_) => NegVerdict(K, l, gen, pair);
    case Jtest(_, _, _) => TestVerdict(K, l, gen, pair);
    case Move(a, d, fl) => OneVerdict(ss[0], bs[0]);
    case Nop => OneVerdict(ss[0], bs[0]);
    case Stop => OneVerdict(ss[0], bs[0]);
    case _ => PlainVerdict(ss, bs);
  }

  // ----- labels inside lines -----

  predicate HasLabel(l: Line) {
    l.Jneg? || l.Jbool? || l.Call? || l.Safepoint?
  }

  /** Where pass 1 puts the generated label, from the start of the line. */
  function LabelOff(e: Enc, v: Chip.Variant, l: Line): nat {
    match l
    case Jneg(a, _, _) => if e == Classic then 64 else 8 * |PlanAll(CANON, NegBody(v, a)).prims|
    case Jbool(_, _, _) => if e == Classic then 64 else 8 * |PlanAll(CANON, BoolBody()).prims|
    case _ => 2 * Stride(e)
  }

  /** How many of its blocks come before the label. */
  function Ahead(e: Enc, l: Line): nat {
    if l.Jneg? then 4 else if l.Jbool? then (if e == Classic then 4 else 7) else 2
  }

  /** The label is behind the line's dispatch, or behind the whole line, in both encodings. */
  lemma LabelExact(K: Ctx, e: Enc, l: Line, gen: Word, pair: Word)
    requires Taken(l) && Pooled(K, l, gen, pair) && Rules.PoolHas(e, K.r) && HasLabel(l)
    ensures var bs := Rules.Expand(e, K.r, MacroOf(K, l, gen, pair));
            Ahead(e, l) <= |bs| && AllBanked(bs) && BehindAt(e, 0, bs[..Ahead(e, l)]) == LabelOff(e, K.v, l)
  {
    if e == Classic {
      ClassicLabel(K, l, gen, pair);
    } else if l.Jneg? || l.Jbool? {
      SlotLabel(K, l, gen, pair);
    } else {
      var bs := Rules.Expand(e, K.r, MacroOf(K, l, gen, pair));
      Plains(Scanned(K.v, l), bs);
      assert bs[..2] == bs;
      PlainPlan(Scanned(K.v, l));
    }
  }

  lemma ClassicLabel(K: Ctx, l: Line, gen: Word, pair: Word)
    requires Taken(l) && Pooled(K, l, gen, pair) && Rules.PoolHas(Classic, K.r) && HasLabel(l)
    ensures var bs := Rules.Expand(Classic, K.r, MacroOf(K, l, gen, pair));
            Ahead(Classic, l) <= |bs| && AllBanked(bs)
            && BehindAt(Classic, 0, bs[..Ahead(Classic, l)]) == LabelOff(Classic, K.v, l)
  {
    hide PlanAll, Shapes;
  }

  lemma SlotLabel(K: Ctx, l: Line, gen: Word, pair: Word)
    requires Taken(l) && Pooled(K, l, gen, pair) && (l.Jneg? || l.Jbool?)
    ensures var bs := BlocksOf(K, l, gen, pair);
            Ahead(Macros.Compact, l) <= |bs| && AllBanked(bs)
            && BehindAt(Macros.Compact, 0, bs[..Ahead(Macros.Compact, l)]) == LabelOff(Macros.Compact, K.v, l)
  {
    var r, x, bs := K.r, K.At(l.a), BlocksOf(K, l, gen, pair);
    if l.Jneg? {
      NegAgrees(r, K.v, l.a, x, r.Lit(JnegMask(Macros.Compact)), r.Lit(gen));
      hide PlanAll, Shapes;
      assert bs[..4] == JnegM(Macros.Compact, r, x, r.Lit(gen));
    } else {
      BoolAgrees(r, x, r.Lit(gen));
      hide PlanAll, Shapes;
      assert bs[..7] == JboolM(Macros.Compact, r, x, r.Lit(gen));
    }
  }

  lemma {:induction false} PlainPlan(ss: seq<Shape>)
    requires forall i :: 0 <= i < |ss| ==> One(ss[i], PLAIN)
    ensures AllValid(ss) && |PlanAll(CANON, ss).prims| == |ss|
    decreases |ss|
  {
    if ss != [] {
      assert Plan(CANON, ss[0]) == Planned(CANON, [Rec]);
      hide Plan;
      PlainPlan(ss[1..]);
    }
  }

  /** Classic lines are as many blocks as the instruction table says. */
  function Listed(l: Line): nat {
    match l
    case Arith3(op, _, _, _) => if op == SUB then 5 else if op == AND then 6 else 3
    case Shl(_, _) => 3
    case Mulc(_, _, _) => 3
    case Jneg(_, _, _) => 6
    case Jbool(_, _, _) => 6
    case Jsign(_) => 4
    case Jtest(t, _, _) => if t == JEQ then 12 else 16
    case Call(_) => 2
    case Safepoint => 2
    case _ => 1
  }

  lemma ClassicSized(K: Ctx, l: Line, gen: Word, pair: Word)
    requires Taken(l) && Pooled(K, l, gen, pair) && Rules.PoolHas(Classic, K.r)
    ensures |Rules.Expand(Classic, K.r, MacroOf(K, l, gen, pair))| == Listed(l)
  {
  }

  // ----- the passes -----

  function MulRest(k: Word, bit: int, started: bool): seq<Shape> {
    if bit < 0 then [] else MulShapes(k, bit, started)
  }

  /** The additions of a product, found bit by bit. */
  method ScanProduct(k: Word) returns (ss: seq<Shape>)
    ensures ss == MulShapes(k, 31, false)
  {
    hide Bit, Sh, MulShapes, MulRest;
    ss := [];
    var started, bit := false, 31;
    MulAll(k);
    while bit >= 0
      invariant -1 <= bit <= 31
      invariant MulShapes(k, 31, false) == ss + MulRest(k, bit, started)
    {
      MulHere(k, bit, started);
      ghost var rest, all, was := MulRest(k, bit - 1, started || Bit(k, bit) == 1), MulRest(k, bit, started), ss;
      if started { ss := ss + [Sh(SNIFF)]; }
      if Bit(k, bit) == 1 {
        ss := ss + [Sh(SNIFF)];
        started := true;
      }
      assert ss + rest == was + all;
      bit := bit - 1;
    }
    MulAll(k);
  }

  lemma MulAll(k: Word)
    ensures MulRest(k, 31, false) == MulShapes(k, 31, false) && forall b :: MulRest(k, -1, b) == []
  {
  }

  lemma MulHere(k: Word, bit: nat, started: bool)
    ensures MulRest(k, bit, started)
         == (if started then [Sh(SNIFF)] else []) + (if Bit(k, bit) == 1 then [Sh(SNIFF)] else [])
            + MulRest(k, bit - 1, started || Bit(k, bit) == 1)
  {
    hide Bit, Sh;
  }

  method Scan(v: Chip.Variant, l: Line) returns (ss: seq<Shape>)
    requires Taken(l)
    ensures ss == Scanned(v, l)
  {
    if l.Mulc? {
      ss := ScanProduct(l.k);
      ss := [Sh(PLAIN)] + ss + [Rd(IsPc(l.d))];
    } else {
      ss := Scanned(v, l);
    }
  }

  function ScannedAll(v: Chip.Variant, lines: seq<Line>): (ss: seq<seq<Shape>>)
    requires forall j :: 0 <= j < |lines| ==> Taken(lines[j])
    ensures |ss| == |lines| && forall j :: 0 <= j < |lines| ==> AllValid(ss[j]) && ss[j] == Scanned(v, lines[j])
  {
    ScansValid(v, lines);
    seq(|lines|, j requires 0 <= j < |lines| => Scanned(v, lines[j]))
  }

  lemma ScansValid(v: Chip.Variant, lines: seq<Line>)
    requires forall j :: 0 <= j < |lines| ==> Taken(lines[j])
    ensures forall j :: 0 <= j < |lines| ==> AllValid(Scanned(v, lines[j]))
  {
    forall j | 0 <= j < |lines| ensures AllValid(Scanned(v, lines[j])) { ScanValid(v, lines[j]); }
  }

  lemma ScanValid(v: Chip.Variant, l: Line)
    requires Taken(l)
    ensures AllValid(Scanned(v, l))
  {
    if l.Mulc? {
      ProductValid(l.k, IsPc(l.d));
    } else if l.Jtest? {
      TestValid(v, l);
    } else if l.Jneg? || l.Jbool? {
      ValidBodies(v, l.a);
      hide AllValid;
      ValidJoin(if l.Jneg? then NegBody(v, l.a) else BoolBody(), [JMP, JMP]);
    } else if l.Jsign? {
      ValidBodies(v, l.a);
    } else if l.Arith3? {
      SumValid(v, l);
    }
  }

  lemma SumValid(v: Chip.Variant, l: Line)
    requires l.Arith3?
    ensures AllValid(Scanned(v, l))
  {
    ValidParts();
    var q := [Sh(PLAIN), Sh(PLAIN), Rd(false)];
    ValidJoin(DIFFERENCE, [Rd(IsPc(l.d))]);
    ValidJoin(q, [Sh(PLAIN), Sh(PLAIN), Rd(IsPc(l.d))]);
  }

  lemma ValidBodies(v: Chip.Variant, a: Operand)
    ensures AllValid(NegBody(v, a)) && AllValid(BoolBody()) && AllValid([JMP, JMP])
  {
  }

  lemma ProductValid(k: Word, pc: bool)
    ensures AllValid([Sh(PLAIN)] + MulShapes(k, 31, false) + [Rd(pc)])
  {
    hide MulShapes, Bit;
    MulAgree(Regs(Env(0, 0, map[]), 0, 0), Acc, k, 31, false);
    ValidJoin([Sh(PLAIN)], MulShapes(k, 31, false));
    ValidJoin([Sh(PLAIN)] + MulShapes(k, 31, false), [Rd(pc)]);
  }

  lemma TestValid(v: Chip.Variant, l: Line)
    requires l.Jtest?
    ensures AllValid(Scanned(v, l))
  {
    var p := [Sh(PLAIN)];
    ValidParts();
    hide AllValid;
    ValidJoin(DIFFERENCE + RESEED, p);
    ValidJoin(DIFFERENCE + RESEED + p, [Sh(SNIFF)]);
    ValidJoin(DIFFERENCE + RESEED + p + [Sh(SNIFF)], RESEED);
    ValidJoin(DIFFERENCE + RESEED + p + [Sh(SNIFF)] + RESEED, p);
    ValidJoin(DIFFERENCE + RESEED + p + [Sh(SNIFF)] + RESEED + p, SIGN_TAIL);
    var q, s := [Sh(PLAIN), Sh(PLAIN), Rd(false)], [Sh(PLAIN), Rd(false), Sh(PLAIN), Sh(PLAIN), Sh(PLAIN)];
    ValidJoin(q, DIFFERENCE);
    ValidJoin(q + DIFFERENCE, RESEED);
    ValidJoin(q + DIFFERENCE + RESEED, s);
    ValidJoin(q + DIFFERENCE + RESEED + s, SIGN_TAIL);
  }

  lemma ValidParts()
    ensures AllValid(DIFFERENCE) && AllValid(RESEED) && AllValid(SIGN_TAIL) && AllValid([Sh(PLAIN)])
    ensures AllValid([Sh(SNIFF)]) && AllValid(DIFFERENCE + RESEED) && AllValid([Sh(PLAIN), Sh(PLAIN), Rd(false)])
    ensures AllValid([Sh(PLAIN), Rd(false), Sh(PLAIN), Sh(PLAIN), Sh(PLAIN)])
  {
  }

  lemma ValidJoin(xs: seq<Shape>, ys: seq<Shape>)
    requires AllValid(xs) && AllValid(ys)
    ensures AllValid(xs + ys)
  {
  }

  /** Pass 1: the size and start of every line, its label and the offset of its payload. */
  method Layout(v: Chip.Variant, lines: seq<Line>)
    returns (ok: bool, crecs: seq<nat>, starts: seq<nat>, labels: seq<nat>, deltas: seq<nat>)
    ensures ok <==> forall j :: 0 <= j < |lines| ==> Taken(lines[j])
    ensures ok ==> |crecs| == |starts| == |labels| == |deltas| == |lines|
    ensures ok ==> forall j :: 0 <= j < |lines| ==> LaidOut(v, lines, j, crecs[j], starts[j], labels[j], deltas[j])
  {
    hide LaidOut, Scanned, Instr, Taken, LabelOff, ScannedAll, Flatten;
    ok, crecs, starts, labels, deltas := true, [], [], [], [];
    var off := 0;
    NoLines(v);
    for j := 0 to |lines|
      invariant forall i :: 0 <= i < j ==> Taken(lines[i])
      invariant |crecs| == |starts| == |labels| == |deltas| == j && off == OffsetOf(v, lines, j)
      invariant forall i :: 0 <= i < j ==> LaidOut(v, lines, i, crecs[i], starts[i], labels[i], deltas[i])
    {
      if !Taken(lines[j]) { ok := false; return; }
      NextLine(v, lines, j);
      var ss := Scan(v, lines[j]);
      var n := PlanCount(ss);
      var delta := PlanPayloadDelta(ss);
      var mark := off + LabelOff(Macros.Compact, v, lines[j]);
      LineIs(v, lines, j, n, off, mark, delta);
      crecs, starts, labels, deltas := crecs + [n], starts + [off], labels + [mark], deltas + [delta];
      off := off + 8 * n;
    }
  }

  /** The bytes of the first j lines, as pass 1 counts them. */
  ghost function OffsetOf(v: Chip.Variant, lines: seq<Line>, j: nat): nat
    requires j <= |lines| && forall i :: 0 <= i < j ==> Taken(lines[i])
  {
    8 * |Flatten(ScannedAll(v, lines[..j]))|
  }

  lemma NoLines(v: Chip.Variant)
    ensures |Flatten(ScannedAll(v, []))| == 0
  {
  }

  lemma LineIs(v: Chip.Variant, lines: seq<Line>, j: nat, n: nat, start: nat, mark: nat, delta: nat)
    requires j < |lines| && (forall i :: 0 <= i <= j ==> Taken(lines[i])) && AllValid(Scanned(v, lines[j]))
    requires n == |Instr(Scanned(v, lines[j]))| && start == OffsetOf(v, lines, j)
    requires mark == start + LabelOff(Macros.Compact, v, lines[j])
    requires delta % 8 == 0 && FirstPayload(Instr(Scanned(v, lines[j])), delta / 8)
    ensures LaidOut(v, lines, j, n, start, mark, delta)
  {
  }

  /** What pass 1 says of line j. */
  ghost predicate LaidOut(v: Chip.Variant, lines: seq<Line>, j: nat, n: nat, start: nat, mark: nat, delta: nat) {
    && j < |lines| && (forall i :: 0 <= i <= j ==> Taken(lines[i])) && AllValid(Scanned(v, lines[j]))
    && n == |Instr(Scanned(v, lines[j]))| && start == OffsetOf(v, lines, j)
    && mark == start + LabelOff(Macros.Compact, v, lines[j])
    && delta % 8 == 0 && FirstPayload(Instr(Scanned(v, lines[j])), delta / 8)
  }

  lemma NextLine(v: Chip.Variant, lines: seq<Line>, j: nat)
    requires j < |lines| && forall i :: 0 <= i <= j ==> Taken(lines[i])
    ensures AllValid(Scanned(v, lines[j])) && Scanned(v, lines[j]) != []
    ensures OffsetOf(v, lines, j + 1) == OffsetOf(v, lines, j) + 8 * |Instr(Scanned(v, lines[j]))|
  {
    ScanValid(v, lines[j]);
    ScanSome(v, lines[j]);
    hide Instr, Scanned;
    var ss := ScannedAll(v, lines[..j + 1]);
    FlattenSnoc(ss, j);
    assert ss[..j + 1] == ss && ss[..j] == ScannedAll(v, lines[..j]);
  }

  lemma ScanSome(v: Chip.Variant, l: Line)
    requires Taken(l)
    ensures Scanned(v, l) != []
  {
  }

  function AllBlocks(K: Ctx, lines: seq<Line>, gens: seq<Word>, pairs: seq<Word>): (prog: seq<seq<Block>>)
    requires Ready(K, lines, gens, pairs) && forall j :: 0 <= j < |lines| ==> Taken(lines[j])
    ensures |prog| == |lines|
    ensures forall j :: 0 <= j < |lines| ==>
                          AllBanked(prog[j]) && prog[j] == BlocksOf(K, lines[j], gens[j], pairs[j])
  {
    BlocksBanked(K, lines, gens, pairs);
    seq(|lines|, j requires 0 <= j < |lines| => BlocksOf(K, lines[j], gens[j], pairs[j]))
  }

  /** The pool holds what every line that is taken names. */
  predicate Ready(K: Ctx, lines: seq<Line>, gens: seq<Word>, pairs: seq<Word>) {
    |gens| == |pairs| == |lines| &&
    forall j :: 0 <= j < |lines| ==> Taken(lines[j]) ==> Pooled(K, lines[j], gens[j], pairs[j])
  }

  lemma BlocksBanked(K: Ctx, lines: seq<Line>, gens: seq<Word>, pairs: seq<Word>)
    requires Ready(K, lines, gens, pairs) && forall j :: 0 <= j < |lines| ==> Taken(lines[j])
    ensures forall j :: 0 <= j < |lines| ==> AllBanked(BlocksOf(K, lines[j], gens[j], pairs[j]))
  {
    hide Taken, Pooled, BlocksOf, Scanned, Misread;
    forall j | 0 <= j < |lines| ensures AllBanked(BlocksOf(K, lines[j], gens[j], pairs[j])) {
      ScanExact(K, lines[j], gens[j], pairs[j]);
    }
  }

  /** What the assembler makes of the lines: an error in a line, a size the passes disagree on, or
      the text with the positions pass 1 gave out. */
  datatype Assembly =
    | Refused
    | Mismatch
    | Assembled(starts: seq<nat>, labels: seq<nat>, deltas: seq<nat>, text: seq<Prim>)

  /** Every position pass 1 gave out is where pass 2 put it: starts, generated labels and the
      record that block fields address. */
  ghost predicate Placed(prog: seq<seq<Block>>, lines: seq<Line>, r: Assembly)
    requires r.Assembled? && |prog| == |lines| && forall j :: 0 <= j < |prog| ==> AllBanked(prog[j])
  {
    var ss := AllShapes(prog);
    && r.text == Flatten(ss) && |r.starts| == |r.labels| == |r.deltas| == |lines|
    && forall j :: 0 <= j < |lines| ==> PlacedAt(ss, lines[j], j, r.starts[j], r.labels[j], r.deltas[j])
  }

  ghost predicate PlacedAt(ss: seq<seq<Shape>>, l: Line, j: nat, start: nat, mark: nat, delta: nat)
    requires j < |ss| && forall i :: 0 <= i < |ss| ==> AllValid(ss[i])
  {
    && start == 8 * |Flatten(ss[..j])|
    && (HasLabel(l) ==>
          var m := Ahead(Macros.Compact, l);
          m <= |ss[j]| && AllValid(ss[j][..m]) &&
          var ahead := PlanAll(CANON, ss[j][..m]).prims;
          mark == start + 8 * |ahead| && Flatten(ss[..j]) + ahead <= Flatten(ss[..j + 1]))
    && delta % 8 == 0 && FirstPayload(Instr(ss[j]), delta / 8)
  }

  lemma {:induction false} FlattenSame(ss: seq<seq<Shape>>, ts: seq<seq<Shape>>, j: nat)
    requires |ss| == |ts| && j <= |ss|
    requires forall i :: 0 <= i < |ss| ==> AllValid(ss[i]) && AllValid(ts[i])
    requires forall i :: 0 <= i < j ==> Instr(ss[i]) == Instr(ts[i])
    ensures Flatten(ss[..j]) == Flatten(ts[..j])
    decreases j
  {
    hide Instr;
    if j == 0 {
      assert ss[..0] == [] && ts[..0] == [];
    } else {
      FlattenSame(ss, ts, j - 1);
      FlattenSnoc(ss, j - 1);
      FlattenSnoc(ts, j - 1);
    }
  }

  lemma LinePlaced(K: Ctx, lines: seq<Line>, gens: seq<Word>, pairs: seq<Word>, j: nat, n: nat, start: nat, mark: nat,
                   delta: nat)
    requires Ready(K, lines, gens, pairs) && j < |lines|
    requires forall i :: 0 <= i < |lines| ==> Taken(lines[i]) && !Misread(lines[i])
    requires LaidOut(K.v, lines, j, n, start, mark, delta)
    ensures PlacedAt(AllShapes(AllBlocks(K, lines, gens, pairs)), lines[j], j, start, mark, delta)
  {
    hide Taken, Pooled, BlocksOf, Scanned, Misread, Instr, LabelOff, FirstPayload;
    var ss, ts := AllShapes(AllBlocks(K, lines, gens, pairs)), ScannedAll(K.v, lines);
    forall i | 0 <= i < |lines| ensures Instr(ss[i]) == Instr(ts[i]) {
      ScanExact(K, lines[i], gens[i], pairs[i]);
    }
    FlattenSame(ss, ts, j);
    assert ts[..j] == ScannedAll(K.v, lines[..j]);
    if HasLabel(lines[j]) {
      var bs, m := BlocksOf(K, lines[j], gens[j], pairs[j]), Ahead(Macros.Compact, lines[j]);
      BlocksAre(K, lines[j], gens[j], pairs[j]);
      LabelExact(K, Macros.Compact, lines[j], gens[j], pairs[j]);
      assert Shapes(bs[..m]) == Shapes(bs)[..m];
      LabelOffset(ss, j, m);
    }
  }

  lemma BlocksAre(K: Ctx, l: Line, gen: Word, pair: Word)
    requires Taken(l) && Pooled(K, l, gen, pair)
    ensures BlocksOf(K, l, gen, pair) == Rules.Expand(Macros.Compact, K.r, MacroOf(K, l, gen, pair))
    ensures Rules.PoolHas(Macros.Compact, K.r)
  {
  }

  /** Both passes over a program: the sizing check fires exactly when some line is misread, and
      otherwise every position pass 1 gave out is right. */
  method TwoPass(K: Ctx, lines: seq<Line>, gens: seq<Word>, pairs: seq<Word>) returns (r: Assembly)
    requires Ready(K, lines, gens, pairs)
    ensures r.Refused? <==> exists j :: 0 <= j < |lines| && !Taken(lines[j])
    ensures !r.Refused? ==> (r.Mismatch? <==> exists j :: 0 <= j < |lines| && Misread(lines[j]))
    ensures r.Assembled? ==> Placed(AllBlocks(K, lines, gens, pairs), lines, r)
  {
    hide Taken, Pooled, BlocksOf, Misread, Instr, LaidOut, PlacedAt;
    var ok, crecs, starts, labels, deltas := Layout(K.v, lines);
    if !ok { return Refused; }
    var prog := AllBlocks(K, lines, gens, pairs);
    forall j | 0 <= j < |lines| ensures crecs[j] == |Instr(Shapes(prog[j]))| <==> !Misread(lines[j]) {
      SizeExact(K, lines, gens[j], pairs[j], j, crecs[j], starts[j], labels[j], deltas[j]);
    }
    var text;
    ok, text := Passes.Emit(prog, crecs);
    if !ok { return Mismatch; }
    forall j | 0 <= j < |lines| ensures PlacedAt(AllShapes(prog), lines[j], j, starts[j], labels[j], deltas[j]) {
      LinePlaced(K, lines, gens, pairs, j, crecs[j], starts[j], labels[j], deltas[j]);
    }
    return Assembled(starts, labels, deltas, text);
  }

  lemma SizeExact(K: Ctx, lines: seq<Line>, gen: Word, pair: Word, j: nat, n: nat, start: nat, mark: nat, delta: nat)
    requires LaidOut(K.v, lines, j, n, start, mark, delta) && Pooled(K, lines[j], gen, pair)
    ensures AllBanked(BlocksOf(K, lines[j], gen, pair))
    ensures n == |Instr(Shapes(BlocksOf(K, lines[j], gen, pair)))| <==> !Misread(lines[j])
  {
    hide Taken, Pooled, BlocksOf, Misread, Instr, Scanned;
    ScanExact(K, lines[j], gen, pair);
  }

  /** add into the program counter spelled as an address: five records sized, six emitted. */
  lemma MisreadAdd(K: Ctx, a: int, b: int, gen: Word, pair: Word)
    requires Pooled(K, Arith3(ADD, Symbol(a), Symbol(b), Absolute(PC)), gen, pair)
    ensures var l := Arith3(ADD, Symbol(a), Symbol(b), Absolute(PC));
            Instr(Scanned(K.v, l)) == [Rec, Switch(SNIFF), Rec, Rec, Switch(PLAIN)] &&
            AllBanked(BlocksOf(K, l, gen, pair)) &&
            Instr(Shapes(BlocksOf(K, l, gen, pair))) == [Rec, Switch(SNIFF), Rec, StageRead, Switch(PLAIN), StagePush]
  {
    var l := Arith3(ADD, Symbol(a), Symbol(b), Absolute(PC));
    var ss, ts := Scanned(K.v, l), Shapes(BlocksOf(K, l, gen, pair));
    assert ss == [Sh(PLAIN), Sh(SNIFF), Rd(false)];
    assert ts == [Sh(PLAIN), ShapeOf(Sn(K.r, Mem(b))), Rd(true)];
    ThreePlans(Sh(PLAIN), Sh(SNIFF), Rd(false));
    ThreePlans(Sh(PLAIN), ShapeOf(Sn(K.r, Mem(b))), Rd(true));
    NothingStale(CANON, BANKS);
    NothingStale(BUSY, BANKS);
  }

  lemma ThreePlans(x: Shape, y: Shape, z: Shape)
    requires x.Valid() && y.Valid() && z.Valid()
    ensures var p := Plan(CANON, x);
            var q := Plan(p.st, y);
            var r := Plan(q.st, z);
            PlanAll(CANON, [x, y, z]) == Planned(r.st, p.prims + q.prims + r.prims)
  {
    hide Plan;
    PlanJoin(CANON, [x, y], [z]);
    PlanJoin(CANON, [x], [y]);
    OnePlan(CANON, x);
    OnePlan(Plan(CANON, x).st, y);
    OnePlan(Plan(Plan(CANON, x).st, y).st, z);
    assert [x] + [y] == [x, y] && [x, y] + [z] == [x, y, z];
  }

  // ----- the records behind a label -----

  /** Pass 1's count is that of the records emitted, unless the line is misread. */
  lemma RecordsScanned(K: Ctx, l: Line, gen: Word, pair: Word)
    requires Taken(l) && Pooled(K, l, gen, pair) && K.r.env.Ok()
    requires AllOk(BlocksOf(K, l, gen, pair)) && Refinement.LitsFor(K.r.env, BlocksOf(K, l, gen, pair))
    ensures AllValid(Scanned(K.v, l))
    ensures |Refinement.InstrRecords(K.r.env, BlocksOf(K, l, gen, pair))| == |Instr(Scanned(K.v, l))| <==> !Misread(l)
  {
    hide Taken, Pooled, BlocksOf, Scanned, Misread, PlanAll, Sync;
    ScanExact(K, l, gen, pair);
    RecordsCounted(K.r.env, CANON, BlocksOf(K, l, gen, pair));
  }

  /** Where jneg and jbool go with the sign clear, or on 0, and where otherwise. */
  function ClearTo(l: Line): Word
    requires l.Jneg? || l.Jbool?
  {
    if l.Jneg? then l.nonneg else l.zero
  }

  function SetTo(l: Line): Word
    requires l.Jneg? || l.Jbool?
  {
    if l.Jneg? then l.neg else l.one
  }

  /** At the label of jneg and jbool are the two jump slots. */
  lemma SlotsScanned(K: Ctx, l: Line, gen: Word, pair: Word, m: Rules.Dom)
    requires Taken(l) && Pooled(K, l, gen, pair) && K.r.Ok() && (l.Jneg? || l.Jbool?) && !m.sniff
    requires Rules.Operands(K.r, m, MacroOf(K, l, gen, pair))
    ensures ClearTo(l) in K.r.env.lits && SetTo(l) in K.r.env.lits && LabelOff(Macros.Compact, K.v, l) % 8 == 0
    ensures var bs := BlocksOf(K, l, gen, pair);
            && AllOk(bs) && Refinement.LitsFor(K.r.env, bs)
            && var p, rs := LabelOff(Macros.Compact, K.v, l) / 8, Refinement.InstrRecords(K.r.env, bs);
               |rs| == p + 2 && rs[p] == Record(K.r.Lit(ClearTo(l)), Pc) && rs[p + 1] == Record(K.r.Lit(SetTo(l)), Pc)
  {
    hide *;
    var head := SlotParts(K, l, gen, pair);
    SlotRecordsAt(K, l, gen, pair, m, head, ClearTo(l), SetTo(l));
    SlotCount(K, l, gen, pair, head, ClearTo(l), SetTo(l));
  }

  /** Behind the dispatch are the slots. */
  lemma SlotRecordsAt(K: Ctx, l: Line, gen: Word, pair: Word, m: Rules.Dom, head: seq<Block>, y: Word, z: Word)
    requires Taken(l) && Pooled(K, l, gen, pair) && K.r.Ok() && (l.Jneg? || l.Jbool?) && !m.sniff
    requires Rules.Operands(K.r, m, MacroOf(K, l, gen, pair))
    requires y in K.r.env.lits && z in K.r.env.lits && Rules.NoJump(head)
    requires BlocksOf(K, l, gen, pair) == head + [Pl(Acc, Pc)] + Rules.SlotsM(K.r, y, z)
    requires Rules.PoolHas(Macros.Compact, K.r)
    ensures var bs, body := BlocksOf(K, l, gen, pair), head + [Pl(Acc, Pc)];
            && AllOk(bs) && Refinement.LitsFor(K.r.env, bs) && AllBanked(body)
            && var p, rs := |PlanAll(CANON, Shapes(body)).prims|, Refinement.InstrRecords(K.r.env, bs);
               |rs| == p + 2 && rs[p] == Record(K.r.Lit(y), Pc) && rs[p + 1] == Record(K.r.Lit(z), Pc)
  {
    hide JnegM, JboolM, PlanAll, Rules.Passes, Rules.Operands, Pooled;
    var r, slots := K.r, Rules.SlotsM(K.r, y, z);
    Rules.MacroPasses(r, m, MacroOf(K, l, gen, pair));
    hide BlocksOf, MacroOf;
    assert BlocksOf(K, l, gen, pair) == head + ([Pl(Acc, Pc)] + slots);
    PassCut(r.env, m, head, [Pl(Acc, Pc)] + slots, Pl(Acc, Pc));
    SlotsPlaced(r, m, head, y, z);
  }

  lemma SlotCount(K: Ctx, l: Line, gen: Word, pair: Word, head: seq<Block>, y: Word, z: Word)
    requires Taken(l) && Pooled(K, l, gen, pair) && (l.Jneg? || l.Jbool?)
    requires y in K.r.env.lits && z in K.r.env.lits && |head| + 1 == Ahead(Macros.Compact, l)
    requires BlocksOf(K, l, gen, pair) == head + [Pl(Acc, Pc)] + Rules.SlotsM(K.r, y, z)
    ensures AllBanked(head + [Pl(Acc, Pc)])
    ensures LabelOff(Macros.Compact, K.v, l) == 8 * |PlanAll(CANON, Shapes(head + [Pl(Acc, Pc)])).prims|
  {
    hide BlocksOf, LabelOff, PlanAll, Pooled, Taken;
    SlotLabel(K, l, gen, pair);
    assert BlocksOf(K, l, gen, pair)[..|head| + 1] == head + [Pl(Acc, Pc)];
  }

  lemma SlotParts(K: Ctx, l: Line, gen: Word, pair: Word) returns (head: seq<Block>)
    requires Taken(l) && Pooled(K, l, gen, pair) && (l.Jneg? || l.Jbool?)
    ensures ClearTo(l) in K.r.env.lits && SetTo(l) in K.r.env.lits
    ensures Rules.NoJump(head) && |head| + 1 == Ahead(Macros.Compact, l) && Rules.PoolHas(Macros.Compact, K.r)
    ensures BlocksOf(K, l, gen, pair) == head + [Pl(Acc, Pc)] + Rules.SlotsM(K.r, ClearTo(l), SetTo(l))
  {
    var r, x := K.r, K.At(l.a);
    var body := if l.Jneg? then JnegM(Macros.Compact, r, x, r.Lit(gen)) else JboolM(Macros.Compact, r, x, r.Lit(gen));
    head := body[..|body| - 1];
  }

  lemma PassCut(env: Env, m: Rules.Dom, bs: seq<Block>, cs: seq<Block>, b: Block)
    requires Rules.NoJump(bs) && Rules.Passes(env, m, bs + cs) && cs != [] && cs[0] == b && b.Block? && b.dst == Pc
    ensures Rules.Passes(env, m, bs + [b])
    decreases |bs|
  {
    hide Rules.Allowed, Rules.DomNext;
    if bs == [] {
      assert bs + cs == cs && bs + [b] == [b] && [b][1..] == [];
    } else {
      assert (bs + cs)[1..] == bs[1..] + cs && (bs + [b])[1..] == bs[1..] + [b];
      PassCut(env, Rules.DomNext(env, m, bs[0]), bs[1..], cs, b);
    }
  }
}
