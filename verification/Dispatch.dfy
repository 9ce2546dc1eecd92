/** The multiply and dispatch macros: what they compute and where they jump, in both encodings. */
module Dispatch {
  import opened Words
  import opened Bits
  import opened Core
  import opened Planner
  import opened Compact
  import opened Macros
  import opened Meaning

  /** t is s but for the accumulator, %pc and the words of w. */
  ghost predicate Same(s: State, t: State, w: set<int>) {
    t.sctl == s.sctl && t.win == s.win && t.cnt == s.cnt && forall i :: i !in w ==> Peek(t.mem, i) == Peek(s.mem, i)
  }

  // ----- multiply by a constant -----

  lemma {:induction false} SniffBurst(s: State, r: Regs, a: Loc, k: nat)
    requires r.Ok() && Cell(a) && Normal(s)
    ensures var t := Burst(s, a, Mem(r.env.nul), BankMode(SNIFF), k);
            t.acc == Wrap(s.acc + k * Val(s, a)) && Same(s, t, {r.env.nul / 4}) && t.pc == s.pc
    decreases k
  {
    hide Move, ExecBlock, Wrap, Add;
    var d, v := Mem(r.env.nul), Val(s, a);
    if k == 0 {
      WrapWord(s.acc);
      assert k * v == 0;
    } else {
      MoveOnce(s, a, d, SNIFF);
      SniffExec(s, r, a);
      var s1 := Put(s, d, v).(acc := Add(s.acc, v));
      SniffBurst(s1, r, a, k - 1);
      OneMore(s.acc, v, k - 1);
    }
  }

  lemma OneMore(x: Word, v: Word, k: nat)
    ensures Wrap(Add(x, v) + k * v) == Wrap(x + (k + 1) * v)
  {
    WrapSum(x + v, k * v);
    assert v + k * v == (k + 1) * v;
  }

  /** One doubling of the accumulator and, for a set bit, one addition. */
  lemma MulBit(s: State, r: Regs, a: Loc, h: nat, started: bool, bit: int)
    requires r.Ok() && Opnd(r, a) && Normal(s) && (bit == 0 || bit == 1) && (started <==> h != 0)
    requires s.acc == Wrap(h * Val(s, a))
    ensures var bs := (if started then [Sn(r, Acc)] else []) + (if bit == 1 then [Sn(r, a)] else []);
            AllOk(bs) && RunBlocks(s, bs).Fall? &&
            var t := RunBlocks(s, bs).s;
            t.acc == Wrap((2 * h + bit) * Val(s, a)) && Same(s, t, {r.env.nul / 4}) && t.pc == s.pc
  {
    hide ExecBlock, RunBlocks, Wrap, Add;
    var v := Val(s, a);
    DoubleAndAdd(h, v);
    var first := if started then [Sn(r, Acc)] else [];
    var second := if bit == 1 then [Sn(r, a)] else [];
    var s1 := if started then ExecBlock(s, Sn(r, Acc)) else s;
    assert RunBlocks(s, first) == Fall(s1) && s1.acc == Wrap((2 * h) * v) && Same(s, s1, {r.env.nul / 4})
        && s1.pc == s.pc by {
      if started { SniffExec(s, r, Acc); Run1(s, Sn(r, Acc)); } else { EmptyFall(s); }
    }
    SniffMaybe(s1, r, a, bit);
    RunSplit(s, first, second);
  }

  lemma EmptyFall(s: State)
    ensures RunBlocks(s, []) == Fall(s)
  {
  }

  lemma SniffMaybe(s: State, r: Regs, a: Loc, bit: int)
    requires r.Ok() && Cell(a) && Normal(s)
    ensures var bs := if bit == 1 then [Sn(r, a)] else [];
            AllOk(bs) && RunBlocks(s, bs).Fall? &&
            var t := RunBlocks(s, bs).s;
            t.acc == (if bit == 1 then Add(s.acc, Val(s, a)) else s.acc) && Same(s, t, {r.env.nul / 4}) && t.pc == s.pc
  {
    hide ExecBlock, RunBlocks, Wrap, Add;
    if bit == 1 { SniffExec(s, r, a); Run1(s, Sn(r, a)); } else { EmptyFall(s); }
  }

  lemma {:induction false} MulStepsMean(s: State, r: Regs, a: Loc, k: nat, i: nat, started: bool)
    requires r.Ok() && Opnd(r, a) && Normal(s) && (started <==> Shr(k, i + 1) != 0)
    requires s.acc == Wrap(Shr(k, i + 1) * Val(s, a))
    ensures AllOk(MulSteps(r, a, k, i, started)) && RunBlocks(s, MulSteps(r, a, k, i, started)).Fall?
    ensures var t := RunBlocks(s, MulSteps(r, a, k, i, started)).s;
            t.acc == Wrap(k * Val(s, a)) && Same(s, t, {r.env.nul / 4}) && t.pc == s.pc
    decreases i
  {
    hide ExecBlock, RunBlocks;
    var h, bit, v := Shr(k, i + 1), Bit(k, i), Val(s, a);
    ShrStep(k, i);
    MulBit(s, r, a, h, started, bit);
    var here := (if started then [Sn(r, Acc)] else []) + (if bit == 1 then [Sn(r, a)] else []);
    if i > 0 {
      var s1 := RunBlocks(s, here).s;
      assert Val(s1, a) == v;
      MulStepsMean(s1, r, a, k, i - 1, started || bit == 1);
      RunSplit(s, here, MulSteps(r, a, k, i - 1, started || bit == 1));
    } else {
      assert Shr(k, 0) == k;
    }
  }

  /** mulc multiplies modulo 2^32 in both encodings. */
  lemma MulcMeans(e: Enc, s: State, r: Regs, a: Loc, k: Word, d: Loc)
    requires r.Ok() && Opnd(r, a) && Normal(s) && Val(s, Mem(r.zero)) == 0 && Cell(d)
    ensures AllOk(MulcM(e, r, a, k, d)) && RunBlocks(s, MulcM(e, r, a, k, d)).Fall?
    ensures var t := RunBlocks(s, MulcM(e, r, a, k, d)).s;
            Val(t, d) == Wrap(k * Val(s, a)) && Same(s, t, {r.env.nul / 4, d.addr / 4}) && t.pc == s.pc
  {
    hide ExecBlock, RunBlocks;
    var z, v := Mem(r.zero), Val(s, a);
    LoadExec(s, z); Run1(s, Pl(z, Acc));
    var s1 := s.(acc := 0);
    var body := if e == Classic then [Block(a, Mem(r.env.nul), k, SNIFF, false)] else MulSteps(r, a, k, 31, false);
    var t1 := MulBody(e, s1, r, a, k);
    RunSplit(s, [Pl(z, Acc)], body);
    Stored(s, [Pl(z, Acc)] + body, t1, d);
    assert MulcM(e, r, a, k, d) == [Pl(z, Acc)] + body + [Pl(Acc, d)];
  }

  lemma MulBody(e: Enc, s: State, r: Regs, a: Loc, k: Word) returns (t: State)
    requires r.Ok() && Opnd(r, a) && Normal(s) && s.acc == 0
    ensures var body := if e == Classic then [Block(a, Mem(r.env.nul), k, SNIFF, false)]
              else MulSteps(r, a, k, 31, false);
            AllOk(body) && RunBlocks(s, body) == Fall(t)
    ensures t.acc == Wrap(k * Val(s, a)) && Same(s, t, {r.env.nul / 4}) && t.pc == s.pc
  {
    if e == Classic {
      var b := Block(a, Mem(r.env.nul), k, SNIFF, false);
      SniffBurst(s, r, a, k);
      t := ExecBlock(s, b);
      Run1(s, b);
    } else {
      hide RunBlocks, Shr;
      LowShr(k, 32); Pow2At32();
      MulStepsMean(s, r, a, k, 31, false);
      t := RunBlocks(s, MulSteps(r, a, k, 31, false)).s;
    }
  }

  // ----- dispatch -----

  /** The literal pool and the zero cell hold what they should, and reads are not reversed. */
  ghost predicate Loaded(r: Regs, s: State) {
    && r.Ok() && Normal(s) && Val(s, Mem(r.zero)) == 0
    && forall v :: v in r.env.lits ==> Val(s, r.Lit(v)) == v
  }

  /** The words a macro may scribble on. */
  function Scratch(r: Regs): set<int> {
    {r.env.nul / 4, r.env.at / 4, r.at2 / 4}
  }

  /** An operand cell outside the scratch words. */
  predicate Free(r: Regs, l: Loc) {
    Cell(l) && l.addr != r.env.nul && l.addr != r.env.at && l.addr != r.at2
  }

  lemma StillLoaded(r: Regs, s: State, t: State)
    requires Loaded(r, s) && Same(s, t, Scratch(r))
    ensures Loaded(r, t)
    ensures forall l :: Free(r, l) ==> Val(t, l) == Val(s, l)
  {
    forall v | v in r.env.lits ensures Val(t, r.Lit(v)) == v {
      assert r.env.Pool(r.env.lits[v] / 4);
      assert r.env.lits[v] / 4 !in Scratch(r);
    }
    assert r.zero / 4 !in Scratch(r);
  }

  /** Byte 3's top bit lands in bit 7 after the swap; the mask keeps only it. */
  lemma SwappedTest(x: Word, j: nat, k: nat)
    requires j < 8 && k == 24 + j
    ensures 0 <= ONES - Pow2(j) < M32
    ensures AndNotW(Bswap(x, 4), ONES - Pow2(j)) == if Bit(x, k) == 1 then Pow2(j) else 0
  {
    Pow2At32();
    Pow2Less(j, 32);
    SwappedBit(x, j);
    AndNotSingle(Bswap(x, 4), j, 32);
  }

  lemma SignMask(x: Word)
    ensures AndNotW(Bswap(x, 4), 0xFFFFFF7F) == if Neg(x) then 128 else 0
  {
    SwappedTest(x, 7, 31);
    NegIsBit31(x);
    assert Pow2(7) == 128;
  }

  /** Clear with a literal, add the base, jump. */
  lemma MaskAndGo(s: State, r: Regs, m: Word, base: Loc)
    requires Loaded(r, s) && m in r.env.lits && Free(r, base)
    ensures var bs := [Pl(r.Lit(m), AccClr), Sn(r, base), Pl(Acc, Pc)];
            AllOk(bs) && RunBlocks(s, bs).Jump? &&
            var t := RunBlocks(s, bs).s;
            t.pc == Add(AndNotW(s.acc, m), Val(s, base)) && Same(s, t, Scratch(r))
  {
    hide ExecBlock, RunBlocks, AndNotW, Add;
    AliasExec(s, r.Lit(m));
    var s1 := s.(acc := AndNotW(s.acc, m));
    SniffExec(s1, r, base);
    var s2 := ExecBlock(s1, Sn(r, base));
    Run2(s, Pl(r.Lit(m), AccClr), Sn(r, base));
    GoExec(s2);
    RunSplit(s, [Pl(r.Lit(m), AccClr), Sn(r, base)], [Pl(Acc, Pc)]);
    assert [Pl(r.Lit(m), AccClr), Sn(r, base)] + [Pl(Acc, Pc)] == [Pl(r.Lit(m), AccClr), Sn(r, base), Pl(Acc, Pc)];
  }

  /** The dispatch tail goes to the pair's first slot on a clear sign, 128 bytes further on a
      set one; x is the tested word. */
  lemma SignTailMeans(e: Enc, s: State, r: Regs, pair: Loc, x: Word)
    requires Loaded(r, s) && 0xFFFFFF7F in r.env.lits && Free(r, pair)
    requires e == Classic ==> s.acc == Bswap(x, 4)
    requires e == Compact ==> Val(s, Mem(r.env.at)) == Bswap(x, 4)
    ensures AllOk(SignTail(e, r, pair)) && RunBlocks(s, SignTail(e, r, pair)).Jump?
    ensures var t := RunBlocks(s, SignTail(e, r, pair)).s;
            t.pc == Add(if Neg(x) then 128 else 0, Val(s, pair)) && Same(s, t, Scratch(r))
  {
    hide ExecBlock, RunBlocks, AndNotW, Add, Bswap;
    var at := Mem(r.env.at);
    var tail := [Pl(r.Lit(0xFFFFFF7F), AccClr), Sn(r, pair), Pl(Acc, Pc)];
    SignMask(x);
    match e
    case Classic =>
      MaskAndGo(s, r, 0xFFFFFF7F, pair);
      assert SignTail(e, r, pair) == tail;
    case Compact =>
      LoadExec(s, at); Run1(s, Pl(at, Acc));
      MaskAndGo(s.(acc := Bswap(x, 4)), r, 0xFFFFFF7F, pair);
      RunSplit(s, [Pl(at, Acc)], tail);
  }

  lemma JsignMeans(s: State, r: Regs, v: Loc, pair: Loc)
    requires Loaded(r, s) && 0xFFFFFF7F in r.env.lits && Cell(v) && Free(r, pair)
    ensures AllOk(JsignM(r, v, pair)) && RunBlocks(s, JsignM(r, v, pair)).Jump?
    ensures var t := RunBlocks(s, JsignM(r, v, pair)).s;
            t.pc == Add(if Neg(Val(s, v)) then 128 else 0, Val(s, pair)) && Same(s, t, Scratch(r))
  {
    hide ExecBlock, RunBlocks, Add, Bswap;
    LoadExec(s, v); Run1(s, Bs(v, Acc));
    SignTailMeans(Classic, s.(acc := Bswap(Val(s, v), 4)), r, pair, Val(s, v));
    RunSplit(s, [Bs(v, Acc)], SignTail(Classic, r, pair));
  }

  /** jneg tests bit 28 (classic) or bit 27 (compact), so it is the sign test exactly for the
      words whose top bits agree. */
  function JnegBit(e: Enc): nat {
    if e == Classic then 28 else 27
  }

  function JnegSlot(e: Enc): Word {
    if e == Classic then 16 else 8
  }

  lemma JnegMaskKeeps(e: Enc, x: Word)
    ensures AndNotW(Bswap(x, 4), JnegMask(e)) == if Bit(x, JnegBit(e)) == 1 then JnegSlot(e) else 0
  {
    hide Bswap, AndNotW, Bit;
    SwappedTest(x, 4, 28); SwappedTest(x, 3, 27);
    assert Pow2(4) == 16 && Pow2(3) == 8;
  }

  lemma JnegMeans(e: Enc, s: State, r: Regs, v: Loc, tramp: Loc)
    requires Loaded(r, s) && JnegMask(e) in r.env.lits && Cell(v) && Free(r, tramp)
    ensures AllOk(JnegM(e, r, v, tramp)) && RunBlocks(s, JnegM(e, r, v, tramp)).Jump?
    ensures var t := RunBlocks(s, JnegM(e, r, v, tramp)).s;
            t.pc == Add(if Bit(Val(s, v), JnegBit(e)) == 1 then JnegSlot(e) else 0, Val(s, tramp))
                && Same(s, t, Scratch(r))
  {
    var x := Val(s, v);
    hide ExecBlock, RunBlocks, Add, Bswap, AndNotW, Bit, Pow2;
    JnegMaskKeeps(e, x);
    LoadExec(s, v); Run1(s, Bs(v, Acc));
    MaskAndGo(s.(acc := Bswap(x, 4)), r, JnegMask(e), tramp);
    RunSplit(s, [Bs(v, Acc)], [Pl(r.Lit(JnegMask(e)), AccClr), Sn(r, tramp), Pl(Acc, Pc)]);
  }

  /** Within its range jneg decides the sign. */
  lemma JnegRange(e: Enc, x: Word)
    requires x < Pow2(JnegBit(e)) || x >= M32 - Pow2(JnegBit(e))
    ensures Bit(x, JnegBit(e)) == 1 <==> Neg(x)
  {
    var n := JnegBit(e);
    Pow2At32();
    Pow2Sum(n, 31 - n);
    if x < Pow2(n) {
      HighBit(x, n, n);
    } else {
      var q := M32 / Pow2(n) - 1;
      BitShift(x, n, 0); LowShr(x, n);
      assert Pow2(28) == 0x1000_0000 && Pow2(27) == 0x800_0000;
    }
  }

  /** jbool scales a 0/1 word by the slot size. */
  lemma JboolMeans(e: Enc, s: State, r: Regs, v: Loc, tramp: Loc)
    requires Loaded(r, s) && Free(r, v) && Free(r, tramp)
    ensures AllOk(JboolM(e, r, v, tramp)) && RunBlocks(s, JboolM(e, r, v, tramp)).Jump?
    ensures var t := RunBlocks(s, JboolM(e, r, v, tramp)).s;
            t.pc == Add(Wrap(JnegSlot(e) * Val(s, v)), Val(s, tramp)) && Same(s, t, Scratch(r))
  {
    hide ExecBlock, RunBlocks, Add, Wrap;
    var z, w := Mem(r.zero), if e == Classic then 16 else 1;
    LoadExec(s, z); Run1(s, Pl(z, Acc));
    var s1 := s.(acc := 0);
    var b := Block(v, Mem(r.env.nul), w, SNIFF, false);
    var s2 := ScaledBy(s1, r, v, w);
    RunSplit(s, [Pl(z, Acc)], [b]);
    StillLoaded(r, s1, s2);
    var head := [Pl(z, Acc), b];
    assert [Pl(z, Acc)] + [b] == head;
    if e == Classic {
      AddAndGo(s2, r, tramp);
      RunSplit(s, head, [Sn(r, tramp), Pl(Acc, Pc)]);
    } else {
      var s3 := Eightfold(s2, r, Val(s, v));
      StillLoaded(r, s2, s3);
      AddAndGo(s3, r, tramp);
      var mid := [Sn(r, Acc), Sn(r, Acc), Sn(r, Acc)];
      RunSplit(s, head, mid);
      RunSplit(s, head + mid, [Sn(r, tramp), Pl(Acc, Pc)]);
    }
  }

  lemma ScaledBy(s: State, r: Regs, v: Loc, w: Word) returns (t: State)
    requires Loaded(r, s) && Cell(v) && s.acc == 0
    ensures var b := Block(v, Mem(r.env.nul), w, SNIFF, false); b.Ok() && RunBlocks(s, [b]) == Fall(t)
    ensures t.acc == Wrap(w * Val(s, v)) && Same(s, t, Scratch(r))
  {
    var b := Block(v, Mem(r.env.nul), w, SNIFF, false);
    SniffBurst(s, r, v, w);
    t := ExecBlock(s, b);
    Run1(s, b);
  }

  lemma Eightfold(s: State, r: Regs, x: Word) returns (t: State)
    requires Loaded(r, s) && s.acc == Wrap(1 * x)
    ensures RunBlocks(s, [Sn(r, Acc), Sn(r, Acc), Sn(r, Acc)]) == Fall(t)
    ensures t.acc == Wrap(8 * x) && Same(s, t, Scratch(r))
  {
    hide ExecBlock, RunBlocks, Add, Wrap;
    DoubleAndAdd(1, x); DoubleAndAdd(2, x); DoubleAndAdd(4, x);
    SniffExec(s, r, Acc);
    var s1 := ExecBlock(s, Sn(r, Acc));
    SniffExec(s1, r, Acc);
    var s2 := ExecBlock(s1, Sn(r, Acc));
    SniffExec(s2, r, Acc);
    t := ExecBlock(s2, Sn(r, Acc));
    Run3(s, Sn(r, Acc), Sn(r, Acc), Sn(r, Acc));
  }

  lemma AddAndGo(s: State, r: Regs, base: Loc)
    requires Loaded(r, s) && Free(r, base)
    ensures RunBlocks(s, [Sn(r, base), Pl(Acc, Pc)]).Jump?
    ensures var t := RunBlocks(s, [Sn(r, base), Pl(Acc, Pc)]).s;
            t.pc == Add(s.acc, Val(s, base)) && Same(s, t, Scratch(r))
  {
    hide ExecBlock, RunBlocks, Add;
    SniffExec(s, r, base); Run1(s, Sn(r, base));
    GoExec(ExecBlock(s, Sn(r, base)));
    RunSplit(s, [Sn(r, base)], [Pl(Acc, Pc)]);
    assert [Sn(r, base)] + [Pl(Acc, Pc)] == [Sn(r, base), Pl(Acc, Pc)];
  }

  // ----- comparisons -----

  /** x | -x has its sign set exactly when x is not zero. */
  lemma NonzeroSign(x: Word)
    ensures Neg(OrW(x, Sub(0, x))) <==> x != 0
    ensures Neg(OrW(Sub(0, x), x)) <==> x != 0
  {
    SignOps(x, Sub(0, x)); SignOps(Sub(0, x), x);
    hide OrW;
  }

  /** The signed borrow expression has its sign set exactly when a < b. */
  lemma LessSign(a: Word, b: Word)
    ensures Neg(OrW(AndNotW(a, b), AndNotW(Sub(a, b), XorW(a, b)))) <==> Signed(a) < Signed(b)
  {
    SignOps(a, b); SignOps(Sub(a, b), XorW(a, b)); SignOps(AndNotW(a, b), AndNotW(Sub(a, b), XorW(a, b)));
    hide OrW, AndNotW, XorW;
  }

  /** The unsigned borrow expression. */
  lemma BelowSign(a: Word, b: Word)
    ensures Neg(OrW(AndNotW(b, a), AndNotW(Sub(a, b), AndNotW(a, b)))) <==> a < b
  {
    SignOps(a, b); SignOps(b, a); SignOps(Sub(a, b), AndNotW(a, b));
    SignOps(AndNotW(b, a), AndNotW(Sub(a, b), AndNotW(a, b)));
    hide OrW, AndNotW, XorW;
  }

  /** Swapping the tested word to where the dispatch tail looks, and dispatching. */
  lemma SwapAndGo(e: Enc, s: State, r: Regs, pair: Loc)
    requires Loaded(r, s) && 0xFFFFFF7F in r.env.lits && Free(r, pair)
    ensures AllOk(Swapped(e, r) + SignTail(e, r, pair)) && RunBlocks(s, Swapped(e, r) + SignTail(e, r, pair)).Jump?
    ensures var t := RunBlocks(s, Swapped(e, r) + SignTail(e, r, pair)).s;
            t.pc == Add(if Neg(s.acc) then 128 else 0, Val(s, pair)) && Same(s, t, Scratch(r))
  {
    hide ExecBlock, RunBlocks, Add, Bswap;
    var at := Mem(r.env.at);
    SwapAccExec(s); StoreExec(s, at);
    Run1(s, Bs(Acc, Acc)); Run1(s, Bs(Acc, at));
    var s1 := if e == Classic then s.(acc := Bswap(s.acc, 4)) else Put(s, at, Bswap(s.acc, 4));
    StillLoaded(r, s, s1);
    SignTailMeans(e, s1, r, pair, s.acc);
    RunSplit(s, Swapped(e, r), SignTail(e, r, pair));
  }

  /** One more block on a run that falls through. */
  lemma Extend(s: State, bs: seq<Block>, t: State, b: Block)
    requires AllOk(bs) && RunBlocks(s, bs) == Fall(t) && b.Ok() && b.Block? && b.dst != Pc
    ensures AllOk(bs + [b]) && RunBlocks(s, bs + [b]) == Fall(ExecBlock(t, b))
  {
    hide ExecBlock, RunBlocks;
    Run1(t, b);
    RunSplit(s, bs, [b]);
  }

  /** The difference a - b, parked in at and left in the accumulator. */
  lemma Difference(s: State, r: Regs, a: Loc, b: Loc, d: Loc) returns (t: State)
    requires Loaded(r, s) && ONES in r.env.lits && Free(r, a) && Free(r, b) && Cell(d) && d.addr / 4 in Scratch(r)
    ensures AllOk(SubInto(r, a, b) + [Pl(Acc, d)]) && RunBlocks(s, SubInto(r, a, b) + [Pl(Acc, d)]) == Fall(t)
    ensures t.acc == Sub(Val(s, a), Val(s, b)) && Val(t, d) == t.acc && Same(s, t, Scratch(r)) && Loaded(r, t)
    ensures d.addr == r.at2 ==> Val(t, Mem(r.env.at)) == Val(s, Mem(r.env.at))
  {
    hide ExecBlock, RunBlocks, Sub;
    SubMeans(s, r, a, b, d);
    var v := Sub(Val(s, a), Val(s, b));
    t := Put(Put(s, Mem(r.env.nul), Val(s, a)), d, v).(acc := v);
    StillLoaded(r, s, t);
  }

  /** The or of a word and its negation, from the word in at and in the accumulator. */
  lemma NegatedOr(e: Enc, s: State, r: Regs) returns (bs: seq<Block>, t: State)
    requires Loaded(r, s) && ONES in r.env.lits && Val(s, Mem(r.env.at)) == s.acc
    ensures var at := Mem(r.env.at);
            bs == (if e == Classic then [Pl(r.Lit(ONES), AccXor), Sn(r, r.Lit(1)), Pl(at, AccSet)]
                   else [Pl(at, Acc), Pl(r.Lit(ONES), AccXor), Sn(r, r.Lit(1))] + [Pl(Acc, Mem(r.at2))] +
                        [Pl(Mem(r.at2), Acc), Pl(at, AccSet)])
    ensures AllOk(bs) && RunBlocks(s, bs) == Fall(t)
    ensures t.acc == OrW(Sub(0, s.acc), s.acc) && Same(s, t, Scratch(r)) && Loaded(r, t)
  {
    hide ExecBlock, RunBlocks, XorW, OrW;
    var at, at2, one, ones, x := Mem(r.env.at), Mem(r.at2), r.Lit(1), r.Lit(ONES), s.acc;
    XorW_Ones(x);
    AliasExec(s, ones);
    var s1 := s.(acc := ONES - x);
    SniffExec(s1, r, one);
    var s2 := Put(s, Mem(r.env.nul), 1).(acc := Sub(0, x));
    assert ExecBlock(s1, Sn(r, one)) == s2;
    StillLoaded(r, s, s2);
    Run2(s, Pl(ones, AccXor), Sn(r, one));
    var pre := [Pl(ones, AccXor), Sn(r, one)];
    if e == Classic {
      AliasExec(s2, at);
      Extend(s, pre, s2, Pl(at, AccSet));
      bs, t := pre + [Pl(at, AccSet)], s2.(acc := OrW(Sub(0, x), x));
    } else {
      LoadExec(s, at); Run1(s, Pl(at, Acc));
      RunSplit(s, [Pl(at, Acc)], pre);
      assert [Pl(at, Acc)] + pre == [Pl(at, Acc), Pl(ones, AccXor), Sn(r, one)];
      Stored(s, [Pl(at, Acc), Pl(ones, AccXor), Sn(r, one)], s2, at2);
      var s3 := Put(s2, at2, s2.acc);
      StillLoaded(r, s2, s3);
      Aliased(s3, at2, at);
      bs := [Pl(at, Acc), Pl(ones, AccXor), Sn(r, one)] + [Pl(Acc, at2)] + [Pl(at2, Acc), Pl(at, AccSet)];
      RunSplit(s, [Pl(at, Acc), Pl(ones, AccXor), Sn(r, one)] + [Pl(Acc, at2)], [Pl(at2, Acc), Pl(at, AccSet)]);
      t := s3.(acc := OrW(Sub(0, x), x));
    }
    StillLoaded(r, s, t);
  }

  /** jeq takes the sign-clear slot exactly when the operands are equal. */
  lemma JeqMeans(e: Enc, s: State, r: Regs, a: Loc, b: Loc, pair: Loc)
    requires Loaded(r, s) && ONES in r.env.lits && 0xFFFFFF7F in r.env.lits && Free(r, a) && Free(r, b) && Free(r, pair)
    ensures AllOk(JeqM(e, r, a, b, pair)) && RunBlocks(s, JeqM(e, r, a, b, pair)).Jump?
    ensures var t := RunBlocks(s, JeqM(e, r, a, b, pair)).s;
            t.pc == Add(if Val(s, a) == Val(s, b) then 0 else 128, Val(s, pair)) && Same(s, t, Scratch(r))
  {
    hide ExecBlock, RunBlocks, OrW, Add;
    var at := Mem(r.env.at);
    var s1 := Difference(s, r, a, b, at);
    var bs, s2 := NegatedOr(e, s1, r);
    StillLoaded(r, s, s1); StillLoaded(r, s1, s2);
    NonzeroSign(s1.acc);
    SwapAndGo(e, s2, r, pair);
    var head, tail := SubInto(r, a, b) + [Pl(Acc, at)], Swapped(e, r) + SignTail(e, r, pair);
    RunSplit(s, head, bs);
    RunSplit(s, head + bs, tail);
    assert JeqM(e, r, a, b, pair) == head + bs + tail;
  }

  /** The difference of a and b with the bits of at cleared, left in at2. */
  lemma MaskedDifference(e: Enc, s: State, r: Regs, a: Loc, b: Loc) returns (bs: seq<Block>, t: State)
    requires Loaded(r, s) && ONES in r.env.lits && Free(r, a) && Free(r, b)
    ensures var at, at2 := Mem(r.env.at), Mem(r.at2);
            bs == SubInto(r, a, b) + (match e case Classic => [] case Compact => [Pl(Acc, at2), Pl(at2, Acc)]) +
                  [Pl(at, AccClr), Pl(Acc, at2)]
    ensures AllOk(bs) && RunBlocks(s, bs) == Fall(t)
    ensures Val(t, Mem(r.at2)) == AndNotW(Sub(Val(s, a), Val(s, b)), Val(s, Mem(r.env.at)))
    ensures Same(s, t, Scratch(r)) && Loaded(r, t)
  {
    hide ExecBlock, RunBlocks, AndNotW, Sub;
    var at, at2, d := Mem(r.env.at), Mem(r.at2), Sub(Val(s, a), Val(s, b));
    var head, s1;
    if e == Classic {
      SubIntoMeans(s, r, a, b);
      head, s1 := SubInto(r, a, b), Put(s, Mem(r.env.nul), Val(s, a)).(acc := d);
    } else {
      s1 := Difference(s, r, a, b, at2);
      LoadExec(s1, at2);
      head := SubInto(r, a, b) + [Pl(Acc, at2)];
      Extend(s, head, s1, Pl(at2, Acc));
      head := head + [Pl(at2, Acc)];
    }
    assert RunBlocks(s, head) == Fall(s1) && s1.acc == d && Val(s1, at) == Val(s, at) && Same(s, s1, Scratch(r));
    StillLoaded(r, s, s1);
    AliasExec(s1, at);
    Extend(s, head, s1, Pl(at, AccClr));
    var s2 := s1.(acc := AndNotW(d, Val(s, at)));
    Stored(s, head + [Pl(at, AccClr)], s2, at2);
    t := Put(s2, at2, s2.acc);
    StillLoaded(r, s, t);
    bs := head + [Pl(at, AccClr)] + [Pl(Acc, at2)];
    assert bs == SubInto(r, a, b) + (match e case Classic => [] case Compact => [Pl(Acc, at2), Pl(at2, Acc)]) +
                 [Pl(at, AccClr), Pl(Acc, at2)];
  }

  /** Blocks that leave the value v in the accumulator and change nothing else, from s and from
      any state that differs from it in scratch words only. */
  ghost predicate Leaves(r: Regs, s: State, bs: seq<Block>, v: Word) {
    AllOk(bs) && forall t :: Loaded(r, t) && Same(s, t, Scratch(r)) ==> RunBlocks(t, bs) == Fall(t.(acc := v))
  }

  lemma AliasedLeaves(r: Regs, s: State, x: Loc, y: Loc)
    requires Loaded(r, s) && Free(r, x) && Free(r, y)
    ensures Leaves(r, s, [Pl(x, Acc), Pl(y, AccXor)], XorW(Val(s, x), Val(s, y)))
    ensures Leaves(r, s, [Pl(x, Acc), Pl(y, AccClr)], AndNotW(Val(s, x), Val(s, y)))
  {
    hide ExecBlock, RunBlocks, XorW, AndNotW;
    forall t: State | Loaded(r, t) && Same(s, t, Scratch(r))
      ensures RunBlocks(t, [Pl(x, Acc), Pl(y, AccXor)]) == Fall(t.(acc := XorW(Val(s, x), Val(s, y))))
      ensures RunBlocks(t, [Pl(x, Acc), Pl(y, AccClr)]) == Fall(t.(acc := AndNotW(Val(s, x), Val(s, y))))
    {
      StillLoaded(r, s, t);
      Aliased(t, x, y);
    }
  }

  /** Up to the masked difference in at2. */
  lemma OrderedHead(e: Enc, s: State, r: Regs, a: Loc, b: Loc, mask: seq<Block>, m: Word)
    returns (bs: seq<Block>, t: State)
    requires Loaded(r, s) && ONES in r.env.lits && Free(r, a) && Free(r, b) && Leaves(r, s, mask, m)
    ensures var at, at2 := Mem(r.env.at), Mem(r.at2);
            bs == mask + [Pl(Acc, at)] + SubInto(r, a, b) +
                  (match e case Classic => [] case Compact => [Pl(Acc, at2), Pl(at2, Acc)])
                      + [Pl(at, AccClr), Pl(Acc, at2)]
    ensures AllOk(bs) && RunBlocks(s, bs) == Fall(t)
    ensures Val(t, Mem(r.at2)) == AndNotW(Sub(Val(s, a), Val(s, b)), m) && Same(s, t, Scratch(r)) && Loaded(r, t)
  {
    hide ExecBlock, RunBlocks, AndNotW, Sub;
    var at := Mem(r.env.at);
    Stored(s, mask, s.(acc := m), at);
    var s1 := Put(s, at, m).(acc := m);
    StillLoaded(r, s, s1);
    var mid;
    mid, t := MaskedDifference(e, s1, r, a, b);
    RunSplit(s, mask + [Pl(Acc, at)], mid);
    bs := mask + [Pl(Acc, at)] + mid;
  }

  /** Up to the merged terms in the accumulator. */
  lemma OrderedMerged(e: Enc, s: State, r: Regs, a: Loc, b: Loc, mask: seq<Block>, m: Word, term: seq<Block>, g: Word)
    returns (bs: seq<Block>, t: State)
    requires Loaded(r, s) && ONES in r.env.lits && Free(r, a) && Free(r, b)
    requires Leaves(r, s, mask, m) && Leaves(r, s, term, g)
    ensures var at, at2 := Mem(r.env.at), Mem(r.at2);
            bs == mask + [Pl(Acc, at)] + SubInto(r, a, b) +
                  (match e case Classic => [] case Compact => [Pl(Acc, at2), Pl(at2, Acc)])
                      + [Pl(at, AccClr), Pl(Acc, at2)] + term + [Pl(at2, AccSet)]
    ensures AllOk(bs) && RunBlocks(s, bs) == Fall(t) && Same(s, t, Scratch(r)) && Loaded(r, t)
    ensures t.acc == OrW(g, AndNotW(Sub(Val(s, a), Val(s, b)), m))
  {
    hide ExecBlock, RunBlocks, OrW, AndNotW, Sub, SubInto;
    var at2 := Mem(r.at2);
    var head, s2 := OrderedHead(e, s, r, a, b, mask, m);
    var s3 := s2.(acc := g);
    assert RunBlocks(s2, term) == Fall(s3);
    RunSplit(s, head, term);
    AliasExec(s3, at2);
    Extend(s, head + term, s3, Pl(at2, AccSet));
    t := s3.(acc := OrW(g, Val(s2, at2)));
    StillLoaded(r, s2, t);
    bs := head + term + [Pl(at2, AccSet)];
  }

  /** The frame of jlt and jltu: the sign of g | ((a - b) & ~m) picks the slot. */
  lemma OrderedMeans(e: Enc, s: State, r: Regs, a: Loc, b: Loc, mask: seq<Block>, m: Word, term: seq<Block>, g: Word,
                     pair: Loc)
    requires Loaded(r, s) && ONES in r.env.lits && 0xFFFFFF7F in r.env.lits && Free(r, a) && Free(r, b) && Free(r, pair)
    requires Leaves(r, s, mask, m) && Leaves(r, s, term, g)
    ensures AllOk(Ordered(e, r, a, b, mask, term, pair)) && RunBlocks(s, Ordered(e, r, a, b, mask, term, pair)).Jump?
    ensures var t := RunBlocks(s, Ordered(e, r, a, b, mask, term, pair)).s;
            t.pc == Add(if Neg(OrW(g, AndNotW(Sub(Val(s, a), Val(s, b)), m))) then 128 else 0, Val(s, pair)) &&
            Same(s, t, Scratch(r))
  {
    hide ExecBlock, RunBlocks, OrW, AndNotW, Sub, Add, Neg, Swapped, SignTail, SubInto, Leaves;
    var body, s1 := OrderedMerged(e, s, r, a, b, mask, m, term, g);
    assert Val(s1, pair) == Val(s, pair) by { StillLoaded(r, s, s1); }
    SwapAndGo(e, s1, r, pair);
    var tail := Swapped(e, r) + SignTail(e, r, pair);
    RunSplit(s, body, tail);
    assert Ordered(e, r, a, b, mask, term, pair) == body + tail;
  }

  /** jlt takes the sign-set slot exactly when a < b as signed words. */
  lemma JltMeans(e: Enc, s: State, r: Regs, a: Loc, b: Loc, pair: Loc)
    requires Loaded(r, s) && ONES in r.env.lits && 0xFFFFFF7F in r.env.lits && Free(r, a) && Free(r, b) && Free(r, pair)
    ensures AllOk(JltM(e, r, a, b, pair)) && RunBlocks(s, JltM(e, r, a, b, pair)).Jump?
    ensures var t := RunBlocks(s, JltM(e, r, a, b, pair)).s;
            t.pc == Add(if Signed(Val(s, a)) < Signed(Val(s, b)) then 128 else 0, Val(s, pair))
                && Same(s, t, Scratch(r))
  {
    hide ExecBlock, RunBlocks, OrW, AndNotW, XorW, Sub, Add, Signed, Neg, Ordered, Leaves;
    var x, y := Val(s, a), Val(s, b);
    AliasedLeaves(r, s, a, b);
    OrderedMeans(e, s, r, a, b, [Pl(a, Acc), Pl(b, AccXor)], XorW(x, y), [Pl(a, Acc), Pl(b, AccClr)], AndNotW(x, y),
        pair);
    LessSign(x, y);
  }

  /** jltu takes the sign-set slot exactly when a < b as unsigned words. */
  lemma JltuMeans(e: Enc, s: State, r: Regs, a: Loc, b: Loc, pair: Loc)
    requires Loaded(r, s) && ONES in r.env.lits && 0xFFFFFF7F in r.env.lits && Free(r, a) && Free(r, b) && Free(r, pair)
    ensures AllOk(JltuM(e, r, a, b, pair)) && RunBlocks(s, JltuM(e, r, a, b, pair)).Jump?
    ensures var t := RunBlocks(s, JltuM(e, r, a, b, pair)).s;
            t.pc == Add(if Val(s, a) < Val(s, b) then 128 else 0, Val(s, pair)) && Same(s, t, Scratch(r))
  {
    hide ExecBlock, RunBlocks, OrW, AndNotW, XorW, Sub, Add, Neg, Ordered, Leaves;
    var x, y := Val(s, a), Val(s, b);
    AliasedLeaves(r, s, a, b); AliasedLeaves(r, s, b, a);
    OrderedMeans(e, s, r, a, b, [Pl(a, Acc), Pl(b, AccClr)], AndNotW(x, y), [Pl(b, Acc), Pl(a, AccClr)], AndNotW(y, x),
        pair);
    BelowSign(x, y);
  }
}
