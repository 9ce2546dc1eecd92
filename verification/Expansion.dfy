/** What every assembler macro does (host/dmaasm/emit.go), stated on the words of its operands: the
    blocks it expands to, run in either encoding, end exactly so. */
module Expansion {
  import opened Words
  import opened Core
  import opened Planner
  import opened Compact
  import opened Macros
  import opened Meaning
  import opened Dispatch
  import opened Rules
  import opened Refinement

  // ----- what is meant -----

  /** Operands are cells; those a macro reads again after it has scribbled are not scratch words. */
  ghost predicate Sourced(e: Enc, r: Regs, s: State, m: Macro) {
    && Loaded(r, s) && PoolHas(e, r) && Named(r, m)
    && match m
       case Add(a, b, d) => Cell(a) && Cell(b) && Cell(d)
       case Sub(a, b, d) => Opnd(r, a) && Opnd(r, b) && Cell(d)
       case Or(a, b, d) => Cell(a) && Cell(b) && Cell(d)
       case Xor(a, b, d) => Cell(a) && Cell(b) && Cell(d)
       case AndNot(a, b, d) => Cell(a) && Cell(b) && Cell(d)
       case And(a, b, d) => Cell(a) && Opnd(r, b) && b.addr != r.env.at && Cell(d)
       case Shl(a, d) => Cell(a) && Cell(d)
       case Mulc(a, _, d) => Opnd(r, a) && Cell(d)
       case Jsign(a, p) => Cell(a) && Free(r, p)
       case Jneg(a, p, _, _) => Cell(a) && Free(r, p)
       case Jbool(a, p, _, _) => Free(r, a) && Free(r, p)
       case Jeq(a, b, p) => Free(r, a) && Free(r, b) && Free(r, p)
       case Jlt(a, b, p) => Free(r, a) && Free(r, b) && Free(r, p)
       case Jltu(a, b, p) => Free(r, a) && Free(r, b) && Free(r, p)
       case Jumpr(a) => Cell(a) || a == Acc
       case Call(_, _, lr) => Cell(lr) && !r.env.Pool(lr.addr / 4)
       case Ret(lr) => Cell(lr)
       case Safepoint(_, irq, to) => Cell(irq) && Cell(to)
       case Gpio(_, reg) => Cell(reg)
       case MoveTo(src, dst, fl) =>
         && (e == Classic ==> fl.words == 0 && !fl.dyn)
         && Aligned(src, MoveSize(fl)) && Aligned(dst, MoveSize(fl))
       case _ => true
  }

  function MoveSize(fl: MoveFlags): int {
    if fl.words == 0 then fl.size else 1
  }

  /** The accumulator and a cell both end as v. */
  function Result(s: State, d: Loc, v: Word): Outcome
    requires d.Mem?
  {
    Fall(Put(s, d, v).(acc := v))
  }

  /** A jump to pc; the scratch words and the accumulator are anything. */
  ghost predicate Goes(r: Regs, s: State, o: Outcome, pc: Word) {
    o.Jump? && o.s.pc == pc && Same(s, o.s, Scratch(r))
  }

  ghost predicate Meant(e: Enc, r: Regs, s: State, m: Macro, o: Outcome)
    requires Sourced(e, r, s, m)
  {
    match m
    case Add(a, b, d) => o == Result(Put(s, Mem(r.env.nul), Val(s, b)), d, Words.Add(Val(s, a), Val(s, b)))
    case Sub(a, b, d) => o == Result(Put(s, Mem(r.env.nul), Val(s, a)), d, Words.Sub(Val(s, a), Val(s, b)))
    case Or(a, b, d) => o == Result(s, d, OrW(Val(s, b), Val(s, a)))
    case Xor(a, b, d) => o == Result(s, d, XorW(Val(s, b), Val(s, a)))
    case AndNot(a, b, d) => o == Result(s, d, AndNotW(Val(s, a), Val(s, b)))
    case And(a, b, d) => o == Result(Put(s, Mem(r.env.at), ONES - Val(s, a)), d, AndW(Val(s, a), Val(s, b)))
    case Shl(a, d) => o == Result(Put(s, Mem(r.env.nul), Val(s, a)), d, Words.Add(Val(s, a), Val(s, a)))
    case Mulc(a, k, d) =>
      o.Fall? && Val(o.s, d) == Wrap(k * Val(s, a)) && Same(s, o.s, {r.env.nul / 4, d.addr / 4}) && o.s.pc == s.pc
    case Jsign(a, p) => Goes(r, s, o, Words.Add(if Val(s, a) >= 0x8000_0000 then 128 else 0, Val(s, p)))
    case Jneg(a, p, _, _) =>
      Goes(r, s, o, Words.Add(if e == Classic then 16 * Bit(Val(s, a), 28) else 8 * Bit(Val(s, a), 27), Val(s, p)))
    case Jbool(a, p, _, _) =>
      Goes(r, s, o, Words.Add(Wrap((if e == Classic then 16 else 8) * Val(s, a)), Val(s, p)))
    case Jeq(a, b, p) => Goes(r, s, o, Words.Add(if Val(s, a) == Val(s, b) then 0 else 128, Val(s, p)))
    case Jlt(a, b, p) => Goes(r, s, o, Words.Add(if Signed(Val(s, a)) < Signed(Val(s, b)) then 128 else 0, Val(s, p)))
    case Jltu(a, b, p) => Goes(r, s, o, Words.Add(if Val(s, a) < Val(s, b) then 128 else 0, Val(s, p)))
    case JumpTo(x) => o == Jump(s.(pc := x))
    case Jumpr(a) => o == Jump(s.(pc := if a == Acc then s.acc else Val(s, a)))
    case Call(f, ret, lr) => o == Jump(Put(s, lr, ret).(pc := f))
    case Ret(lr) => o == Jump(s.(pc := Val(s, lr)))
    case Safepoint(resume, irq, to) =>
      o == Jump(Put(s, irq, resume).(pc := if to == irq then resume else Val(s, to)))
    case Gpio(v, reg) => o == Fall(Put(s, reg, v))
    case MoveTo(src, dst, fl) =>
      var s' := Burst(s, src, dst, Mode(MoveSize(fl), fl.incrR, fl.incrW, fl.bswap, fl.sniff), MoveTimes(s, fl));
      o == if dst == Pc && MoveTimes(s, fl) > 0 then Jump(s') else Fall(s')
    case Nop => o == Fall(s)
    case Halt => o == Stop(s)
  }

  /** How often a move moves: the count given, four times the words, or what the bank was set to. */
  function MoveTimes(s: State, fl: MoveFlags): nat {
    if fl.dyn then Peek(s.cnt, if fl.incrR then SIZE8RW else if fl.incrW then SIZE8W else DynBank(fl))
    else if fl.words == 0 then fl.count else Wrap(4 * fl.words)
  }

  /** The bank of a dyncount move that walks nothing. */
  function DynBank(fl: MoveFlags): int {
    if fl.sniff then SNIFF else if fl.bswap then BSWAP else if fl.size == 1 then SIZE8 else if fl.size == 2 then SIZE16
    else PLAIN
  }

  // ----- and what is done -----

  ghost predicate Done(e: Enc, r: Regs, s: State, m: Macro)
    requires Sourced(e, r, s, m)
  {
    var bs := Expand(e, r, m);
    AllOk(bs) && Meant(e, r, s, m, RunBlocks(s, bs))
  }

  /** Every macro, in both encodings, from every state. */
  lemma {:induction false} ExpandMeans(e: Enc, r: Regs, s: State, m: Macro)
    requires Sourced(e, r, s, m)
    ensures AllOk(Expand(e, r, m)) && Meant(e, r, s, m, RunBlocks(s, Expand(e, r, m)))
  {
    hide Sourced, Meant, Expand, RunBlocks;
    match m
    case Add(_, _, _) => ArithmeticDone(e, r, s, m);
    case Sub(_, _, _) => ArithmeticDone(e, r, s, m);
    case Or(_, _, _) => ArithmeticDone(e, r, s, m);
    case Xor(_, _, _) => ArithmeticDone(e, r, s, m);
    case AndNot(_, _, _) => ArithmeticDone(e, r, s, m);
    case And(_, _, _) => ArithmeticDone(e, r, s, m);
    case Shl(_, _) => ArithmeticDone(e, r, s, m);
    case Mulc(_, _, _) => ArithmeticDone(e, r, s, m);
    case Jsign(_, _) => DispatchDone(e, r, s, m);
    case Jneg(_, _, _, _) => SlottedDone(e, r, s, m);
    case Jbool(_, _, _, _) => SlottedDone(e, r, s, m);
    case Jeq(_, _, _) => DispatchDone(e, r, s, m);
    case Jlt(_, _, _) => DispatchDone(e, r, s, m);
    case Jltu(_, _, _) => DispatchDone(e, r, s, m);
    case MoveTo(_, _, _) => MoveDone(e, r, s, m);
    case _ => ControlDone(e, r, s, m);
    assert Done(e, r, s, m);
  }

  predicate Arithmetic(m: Macro) {
    m.Add? || m.Sub? || m.Or? || m.Xor? || m.AndNot? || m.And? || m.Shl? || m.Mulc?
  }

  lemma {:induction false} ArithmeticDone(e: Enc, r: Regs, s: State, m: Macro)
    requires Sourced(e, r, s, m) && Arithmetic(m)
    ensures Done(e, r, s, m)
  {
    if m.Or? || m.Xor? || m.AndNot? {
      hide Done, Sourced;
      BitwiseDone(e, r, s, m);
    } else {
      hide RunBlocks, AddM, SubM, AndM, ShlM, MulcM, AndW;
      match m
      case Add(a, b, d) => AddMeans(s, r, a, b, d);
      case Sub(a, b, d) => assert Val(s, r.Lit(1)) == 1 && Val(s, r.Lit(ONES)) == ONES; SubMeans(s, r, a, b, d);
      case And(a, b, d) => assert Val(s, r.Lit(ONES)) == ONES; AndMeans(s, r, a, b, d);
      case Shl(a, d) => AddMeans(s, r, a, a, d);
      case Mulc(a, k, d) => MulcMeans(e, s, r, a, k, d);
      case _ =>
    }
  }

  lemma {:induction false} BitwiseDone(e: Enc, r: Regs, s: State, m: Macro)
    requires Sourced(e, r, s, m) && (m.Or? || m.Xor? || m.AndNot?)
    ensures Done(e, r, s, m)
  {
    hide RunBlocks, OrM, XorM, AndNotM, OrW, XorW, AndNotW;
    BitwiseMeans(s, m.a, m.b, m.d);
    BitwiseOk(m.a, m.b, m.d);
  }

  lemma BitwiseOk(a: Loc, b: Loc, d: Loc)
    requires Cell(a) && Cell(b) && Cell(d)
    ensures AllOk(OrM(a, b, d)) && AllOk(XorM(a, b, d)) && AllOk(AndNotM(a, b, d))
  {
  }

  lemma {:induction false} DispatchDone(e: Enc, r: Regs, s: State, m: Macro)
    requires Sourced(e, r, s, m) && (m.Jsign? || m.Jeq? || m.Jlt? || m.Jltu?)
    ensures Done(e, r, s, m)
  {
    hide RunBlocks, JsignM, JeqM, JltM, JltuM, Signed;
    match m
    case Jsign(a, p) => JsignMeans(s, r, a, p);
    case Jeq(a, b, p) => JeqMeans(e, s, r, a, b, p);
    case Jlt(a, b, p) => JltMeans(e, s, r, a, b, p);
    case Jltu(a, b, p) => JltuMeans(e, s, r, a, b, p);
  }

  lemma SlotsFine(r: Regs, x: Word, y: Word)
    requires r.Ok() && x in r.env.lits && y in r.env.lits
    ensures AllOk(SlotsM(r, x, y))
  {
  }

  lemma {:induction false} SlottedDone(e: Enc, r: Regs, s: State, m: Macro)
    requires Sourced(e, r, s, m) && (m.Jneg? || m.Jbool?)
    ensures Done(e, r, s, m)
  {
    hide RunBlocks, JnegM, JboolM, SlotsM, Bit, Wrap;
    SlotsFine(r, m.clear, m.set1);
    if m.Jneg? {
      JnegMeans(e, s, r, m.a, m.tramp);
      BitIs(Val(s, m.a), JnegBit(e));
      RunSplit(s, JnegM(e, r, m.a, m.tramp), SlotsM(r, m.clear, m.set1));
    } else {
      JboolMeans(e, s, r, m.a, m.tramp);
      RunSplit(s, JboolM(e, r, m.a, m.tramp), SlotsM(r, m.clear, m.set1));
    }
  }

  lemma BitIs(x: nat, i: nat)
    ensures Bit(x, i) == 0 || Bit(x, i) == 1
  {
  }

  lemma OneMove(s: State, b: Block)
    requires b.Ok() && b.Block?
    ensures AllOk([b])
    ensures RunBlocks(s, [b]) == var s' := ExecBlock(s, b); if b.dst == Pc && b.Times(s) > 0 then Jump(s') else Fall(s')
  {
    hide ExecBlock;
    var s' := ExecBlock(s, b);
    assert [b][1..] == [];
    assert RunBlocks(s', []) == Fall(s');
  }

  /** A plain move of a cell into a cell, or into %pc. */
  lemma PlainMove(s: State, x: Loc, d: Loc)
    requires Normal(s) && (Cell(x) || x == Acc) && (Cell(d) || d == Pc)
    ensures var v := if x == Acc then s.acc else Val(s, x);
            AllOk([Pl(x, d)]) && RunBlocks(s, [Pl(x, d)]) == if d == Pc then Jump(s.(pc := v)) else Fall(Put(s, d, v))
  {
    hide ExecBlock, RunBlocks;
    OneMove(s, Pl(x, d));
    PlainExec(s, x, d);
  }

  lemma PlainExec(s: State, x: Loc, d: Loc)
    requires Normal(s) && (Cell(x) || x == Acc) && (Cell(d) || d == Pc)
    ensures var v := if x == Acc then s.acc else Val(s, x);
            ExecBlock(s, Pl(x, d)) == if d == Pc then s.(pc := v) else Put(s, d, v)
  {
    var md := BankMode(PLAIN);
    var s' := Move(s, x, d, md);
    assert Burst(s', Next(x, false, 4), Next(d, false, 4), md, 0) == s';
    assert Burst(s, x, d, md, 1) == s';
    hide Burst, Rev32;
    assert Read(s, x, 4) == if x == Acc then s.acc else Val(s, x);
  }

  lemma {:induction false} ControlDone(e: Enc, r: Regs, s: State, m: Macro)
    requires Sourced(e, r, s, m)
    requires m.JumpTo? || m.Jumpr? || m.Call? || m.Ret? || m.Safepoint? || m.Gpio? || m.Nop? || m.Halt?
    ensures Done(e, r, s, m)
  {
    if m.Call? || m.Safepoint? {
      hide Done, Sourced;
      ParkDone(e, r, s, m);
    } else {
      hide RunBlocks;
      match m
      case JumpTo(x) => PlainMove(s, r.Lit(x), Pc);
      case Jumpr(a) => PlainMove(s, a, Pc);
      case Ret(lr) => PlainMove(s, lr, Pc);
      case Gpio(v, reg) => PlainMove(s, r.Lit(v), reg);
      case Nop => NopRuns(s, r);
      case Halt => HaltRuns(s);
      case _ =>
    }
  }

  /** A word parked, and then a jump. */
  lemma {:induction false} ParkAndGo(s: State, x: Loc, d: Loc, y: Loc)
    requires Normal(s) && Cell(x) && Cell(d) && Cell(y)
    ensures var s1 := Put(s, d, Val(s, x));
            AllOk([Pl(x, d), Pl(y, Pc)]) && RunBlocks(s, [Pl(x, d), Pl(y, Pc)]) == Jump(s1.(pc := Val(s1, y)))
  {
    hide RunBlocks;
    PlainMove(s, x, d);
    PlainMove(Put(s, d, Val(s, x)), y, Pc);
    RunSplit(s, [Pl(x, d)], [Pl(y, Pc)]);
    assert [Pl(x, d)] + [Pl(y, Pc)] == [Pl(x, d), Pl(y, Pc)];
  }

  lemma {:induction false} ParkDone(e: Enc, r: Regs, s: State, m: Macro)
    requires Sourced(e, r, s, m) && (m.Call? || m.Safepoint?)
    ensures Done(e, r, s, m)
  {
    hide RunBlocks;
    match m
    case Call(f, ret, lr) =>
      ParkAndGo(s, r.Lit(ret), lr, r.Lit(f));
      assert r.env.Pool(r.env.lits[f] / 4);
    case Safepoint(x, irq, to) =>
      ParkAndGo(s, r.Lit(x), irq, to);
      assert to == irq || to.addr / 4 != irq.addr / 4;
  }

  lemma NopRuns(s: State, r: Regs)
    requires r.Ok()
    ensures var bs := [Block(Mem(r.zero), Mem(r.env.nul), 0, PLAIN, false)];
            AllOk(bs) && RunBlocks(s, bs) == Fall(s)
  {
    OneMove(s, Block(Mem(r.zero), Mem(r.env.nul), 0, PLAIN, false));
  }

  lemma HaltRuns(s: State)
    ensures AllOk([HaltBlock]) && RunBlocks(s, [HaltBlock]) == Stop(s)
  {
  }

  lemma {:induction false} MoveDone(e: Enc, r: Regs, s: State, m: Macro)
    requires Sourced(e, r, s, m) && m.MoveTo?
    ensures Done(e, r, s, m)
  {
    var fl := m.fl;
    var b := MoveBlock(m.src, m.dst, fl);
    BankForMode(FieldSize(Compact, fl), fl.sniff, fl.bswap, fl.incrR, fl.incrW);
    hide Burst, RunBlocks, Wrap;
    OneMove(s, b);
  }

  /** So the records of a macro, run by the bank machine from a related state, exit as is meant. */
  lemma {:induction false} RecordsMean(r: Regs, f: Flags, m: Macro, c: State, b: State) returns (o: Outcome)
    requires MacroOk(r, f, c, m) && Rel(r.env, CANON, f, c, b) && Sourced(Macros.Compact, r, c, m)
    ensures Meant(Macros.Compact, r, c, m, o)
    ensures var bs := Expand(Macros.Compact, r, m);
            && AllOk(bs) && LitsFor(r.env, bs)
            && SameExit(r.env, CANON, InstrFlags(r.env, f, c, bs), o, RunRecords(b, InstrRecords(r.env, bs)))
  {
    hide Meant, Expand, RunBlocks, RunRecords, MacroOk, Rel, SameExit, InstrFlags, InstrRecords;
    ExpandMeans(Macros.Compact, r, c, m);
    MacroRefines(r, f, m, c, b);
    o := RunBlocks(c, Expand(Macros.Compact, r, m));
  }
}
