/** What the assembler macros compute when their blocks run, in either encoding. */
module Meaning {
  import opened Words
  import opened Bits
  import opened Core
  import opened Planner
  import opened Compact
  import opened Macros

  predicate Cell(l: Loc) {
    l.Mem? && l.addr % 4 == 0
  }

  function Val(s: State, l: Loc): Word
    requires l.Mem?
  {
    Peek(s.mem, l.addr / 4)
  }

  function Put(s: State, l: Loc, v: Word): State
    requires l.Mem?
  {
    s.(mem := s.mem[l.addr / 4 := v])
  }

  /** The accumulator reads back unreversed. */
  predicate Normal(s: State) {
    s.sctl / OUT_REV % 2 == 0
  }

  /** The first of several transfers. */
  lemma Unrolled(s: State, x: Loc, y: Loc, m: Mode, k: nat)
    requires m.Ok() && Aligned(x, m.size) && Aligned(y, m.size)
    ensures Burst(s, x, y, m, k + 1)
         == Burst(Move(s, x, y, m), Next(x, m.incrR, m.size), Next(y, m.incrW, m.size), m, k)
  {
    hide Move;
  }

  // ----- running block lists -----

  lemma {:induction false} RunSplit(s: State, bs: seq<Block>, cs: seq<Block>)
    requires AllOk(bs) && AllOk(cs)
    ensures AllOk(bs + cs)
    ensures RunBlocks(s, bs + cs) == (match RunBlocks(s, bs) case Fall(s') => RunBlocks(s', cs) case o => o)
    decreases |bs|
  {
    hide ExecBlock;
    if bs == [] {
      assert bs + cs == cs;
    } else {
      assert (bs + cs)[1..] == bs[1..] + cs;
      if bs[0].Block? && !(bs[0].dst == Pc && bs[0].Times(s) > 0) {
        RunSplit(ExecBlock(s, bs[0]), bs[1..], cs);
      }
    }
  }

  lemma Run1(s: State, b: Block)
    requires b.Ok() && b.Block? && b.dst != Pc
    ensures RunBlocks(s, [b]) == Fall(ExecBlock(s, b))
  {
    hide ExecBlock;
    assert [b][1..] == [];
  }

  lemma Run2(s: State, b: Block, c: Block)
    requires b.Ok() && b.Block? && b.dst != Pc && c.Ok() && c.Block? && c.dst != Pc
    ensures RunBlocks(s, [b, c]) == Fall(ExecBlock(ExecBlock(s, b), c))
  {
    hide ExecBlock, RunBlocks;
    Run1(s, b); Run1(ExecBlock(s, b), c);
    RunSplit(s, [b], [c]);
    assert [b] + [c] == [b, c];
  }

  lemma Run3(s: State, b: Block, c: Block, d: Block)
    requires b.Ok() && b.Block? && b.dst != Pc && c.Ok() && c.Block? && c.dst != Pc && d.Ok() && d.Block? && d.dst != Pc
    ensures RunBlocks(s, [b, c, d]) == Fall(ExecBlock(ExecBlock(ExecBlock(s, b), c), d))
  {
    hide ExecBlock, RunBlocks;
    Run2(s, b, c); Run1(ExecBlock(ExecBlock(s, b), c), d);
    RunSplit(s, [b, c], [d]);
    assert [b, c] + [d] == [b, c, d];
  }

  // ----- single blocks -----

  lemma MoveOnce(s: State, src: Loc, dst: Loc, bank: int)
    requires 0 <= bank < BANKS && Aligned(src, BankMode(bank).size) && Aligned(dst, BankMode(bank).size)
    ensures ExecBlock(s, Block(src, dst, 1, bank, false)) == Move(s, src, dst, BankMode(bank))
  {
    hide Move;
    assert Burst(s, src, dst, BankMode(bank), 1) == Move(s, src, dst, BankMode(bank));
  }

  lemma LoadExec(s: State, x: Loc)
    requires Cell(x)
    ensures ExecBlock(s, Pl(x, Acc)) == s.(acc := Val(s, x))
    ensures ExecBlock(s, Bs(x, Acc)) == s.(acc := Bswap(Val(s, x), 4))
  {
    hide ExecBlock, Bswap;
    MoveOnce(s, x, Acc, PLAIN);
    MoveOnce(s, x, Acc, BSWAP);
  }

  /** The SNIFF_DATA aliases apply xor, or and and-not to the accumulator. */
  lemma AliasExec(s: State, x: Loc)
    requires Normal(s) && Cell(x)
    ensures ExecBlock(s, Pl(x, AccXor)) == s.(acc := XorW(s.acc, Val(s, x)))
    ensures ExecBlock(s, Pl(x, AccSet)) == s.(acc := OrW(s.acc, Val(s, x)))
    ensures ExecBlock(s, Pl(x, AccClr)) == s.(acc := AndNotW(s.acc, Val(s, x)))
  {
    hide ExecBlock, XorW, OrW, AndNotW;
    MoveOnce(s, x, AccXor, PLAIN);
    MoveOnce(s, x, AccSet, PLAIN);
    MoveOnce(s, x, AccClr, PLAIN);
  }

  lemma StoreExec(s: State, d: Loc)
    requires Normal(s) && Cell(d)
    ensures ExecBlock(s, Pl(Acc, d)) == Put(s, d, s.acc)
    ensures ExecBlock(s, Bs(Acc, d)) == Put(s, d, Bswap(s.acc, 4))
  {
    hide ExecBlock, Bswap;
    MoveOnce(s, Acc, d, PLAIN);
    MoveOnce(s, Acc, d, BSWAP);
  }

  lemma SwapAccExec(s: State)
    requires Normal(s)
    ensures ExecBlock(s, Bs(Acc, Acc)) == s.(acc := Bswap(s.acc, 4))
  {
    hide ExecBlock, Bswap;
    MoveOnce(s, Acc, Acc, BSWAP);
  }

  /** A sniffed move into the null cell adds the datum; sniffing the accumulator doubles it. */
  lemma SniffExec(s: State, r: Regs, x: Loc)
    requires r.Ok() && (Cell(x) || x == Acc) && Normal(s)
    ensures var v := if x == Acc then s.acc else Val(s, x);
            ExecBlock(s, Sn(r, x)) == Put(s, Mem(r.env.nul), v).(acc := Add(s.acc, v))
  {
    hide ExecBlock;
    MoveOnce(s, x, Mem(r.env.nul), SNIFF);
  }

  lemma GoExec(s: State)
    requires Normal(s)
    ensures RunBlocks(s, [Pl(Acc, Pc)]) == Jump(s.(pc := s.acc))
  {
    hide ExecBlock;
    MoveOnce(s, Acc, Pc, PLAIN);
  }

  // ----- arithmetic macros -----

  /** An operand a macro may read after writing the null cell. */
  predicate Opnd(r: Regs, l: Loc) {
    Cell(l) && l.addr != r.env.nul
  }

  /** Seed the accumulator, apply one alias. */
  lemma Aliased(s: State, x: Loc, y: Loc)
    requires Normal(s) && Cell(x) && Cell(y)
    ensures RunBlocks(s, [Pl(x, Acc), Pl(y, AccXor)]) == Fall(s.(acc := XorW(Val(s, x), Val(s, y))))
    ensures RunBlocks(s, [Pl(x, Acc), Pl(y, AccSet)]) == Fall(s.(acc := OrW(Val(s, x), Val(s, y))))
    ensures RunBlocks(s, [Pl(x, Acc), Pl(y, AccClr)]) == Fall(s.(acc := AndNotW(Val(s, x), Val(s, y))))
  {
    hide ExecBlock, RunBlocks, XorW, OrW, AndNotW;
    LoadExec(s, x);
    var s1 := s.(acc := Val(s, x));
    AliasExec(s1, y);
    Run2(s, Pl(x, Acc), Pl(y, AccXor));
    Run2(s, Pl(x, Acc), Pl(y, AccSet));
    Run2(s, Pl(x, Acc), Pl(y, AccClr));
  }

  /** Appending a store of the accumulator. */
  lemma Stored(s: State, bs: seq<Block>, s1: State, d: Loc)
    requires AllOk(bs) && RunBlocks(s, bs) == Fall(s1) && Normal(s1) && Cell(d)
    ensures AllOk(bs + [Pl(Acc, d)])
    ensures RunBlocks(s, bs + [Pl(Acc, d)]) == Fall(Put(s1, d, s1.acc))
  {
    hide ExecBlock, RunBlocks;
    StoreExec(s1, d);
    Run1(s1, Pl(Acc, d));
    RunSplit(s, bs, [Pl(Acc, d)]);
  }

  /** or, xor and andn on cells, whatever aliases. */
  lemma BitwiseMeans(s: State, a: Loc, b: Loc, d: Loc)
    requires Normal(s) && Cell(a) && Cell(b) && Cell(d)
    ensures var v := OrW(Val(s, b), Val(s, a)); RunBlocks(s, OrM(a, b, d)) == Fall(Put(s, d, v).(acc := v))
    ensures var v := XorW(Val(s, b), Val(s, a)); RunBlocks(s, XorM(a, b, d)) == Fall(Put(s, d, v).(acc := v))
    ensures var v := AndNotW(Val(s, a), Val(s, b)); RunBlocks(s, AndNotM(a, b, d)) == Fall(Put(s, d, v).(acc := v))
  {
    hide ExecBlock, RunBlocks, XorW, OrW, AndNotW;
    Aliased(s, b, a); Aliased(s, a, b);
    Stored(s, [Pl(b, Acc), Pl(a, AccSet)], s.(acc := OrW(Val(s, b), Val(s, a))), d);
    Stored(s, [Pl(b, Acc), Pl(a, AccXor)], s.(acc := XorW(Val(s, b), Val(s, a))), d);
    Stored(s, [Pl(a, Acc), Pl(b, AccClr)], s.(acc := AndNotW(Val(s, a), Val(s, b))), d);
    assert OrM(a, b, d) == [Pl(b, Acc), Pl(a, AccSet)] + [Pl(Acc, d)];
    assert XorM(a, b, d) == [Pl(b, Acc), Pl(a, AccXor)] + [Pl(Acc, d)];
    assert AndNotM(a, b, d) == [Pl(a, Acc), Pl(b, AccClr)] + [Pl(Acc, d)];
  }

  /** Complementing a, then clearing it from b, is the conjunction. */
  lemma AndMeans(s: State, r: Regs, a: Loc, b: Loc, d: Loc)
    requires r.Ok() && Normal(s) && Cell(a) && Opnd(r, b) && b.addr != r.env.at && Cell(d)
    requires ONES in r.env.lits && Val(s, r.Lit(ONES)) == ONES
    ensures AllOk(AndM(r, a, b, d))
    ensures var v := AndW(Val(s, a), Val(s, b));
            RunBlocks(s, AndM(r, a, b, d)) == Fall(Put(Put(s, Mem(r.env.at), ONES - Val(s, a)), d, v).(acc := v))
  {
    hide ExecBlock, RunBlocks, XorW, AndNotW, AndW;
    var at, ones := Mem(r.env.at), r.Lit(ONES);
    var v := Val(s, a);
    Aliased(s, a, ones); XorW_Ones(v);
    var first := [Pl(a, Acc), Pl(ones, AccXor)];
    Stored(s, first, s.(acc := ONES - v), at);
    var s1 := Put(s, at, ONES - v).(acc := ONES - v);
    assert RunBlocks(s, first + [Pl(Acc, at)]) == Fall(s1);
    Aliased(s1, b, at);
    ClearComplement(Val(s, b), v);
    var second := [Pl(b, Acc), Pl(at, AccClr)];
    Stored(s1, second, s1.(acc := AndW(v, Val(s, b))), d);
    RunSplit(s, first + [Pl(Acc, at)], second + [Pl(Acc, d)]);
    assert AndM(r, a, b, d) == first + [Pl(Acc, at)] + (second + [Pl(Acc, d)]);
  }

  /** With at as its second operand, which the complement has overwritten by then, the result is 0:
      the conjunction exactly when that is 0. */
  lemma AndWithAt(s: State, r: Regs, a: Loc, d: Loc)
    requires r.Ok() && Normal(s) && Cell(a) && Cell(d)
    requires ONES in r.env.lits && Val(s, r.Lit(ONES)) == ONES
    ensures AllOk(AndM(r, a, Mem(r.env.at), d))
    ensures RunBlocks(s, AndM(r, a, Mem(r.env.at), d))
         == Fall(Put(Put(s, Mem(r.env.at), ONES - Val(s, a)), d, 0).(acc := 0))
  {
    hide ExecBlock, RunBlocks, XorW, AndNotW, AndW;
    var at, ones := Mem(r.env.at), r.Lit(ONES);
    var v := Val(s, a);
    Aliased(s, a, ones); XorW_Ones(v);
    var first := [Pl(a, Acc), Pl(ones, AccXor)];
    Stored(s, first, s.(acc := ONES - v), at);
    var s1 := Put(s, at, ONES - v).(acc := ONES - v);
    assert RunBlocks(s, first + [Pl(Acc, at)]) == Fall(s1);
    Aliased(s1, at, at);
    ClearSelf(ONES - v);
    var second := [Pl(at, Acc), Pl(at, AccClr)];
    Stored(s1, second, s1.(acc := 0), d);
    RunSplit(s, first + [Pl(Acc, at)], second + [Pl(Acc, d)]);
    assert AndM(r, a, at, d) == first + [Pl(Acc, at)] + (second + [Pl(Acc, d)]);
  }

  lemma ClearSelf(x: Word)
    ensures AndNotW(x, x) == 0
  {
    NoCommon(x);
  }

  lemma {:induction false} NoCommon(x: nat)
    ensures AndNot(x, x) == 0
  {
    if x > 0 { NoCommon(x / 2); }
  }

  lemma ClearComplement(x: Word, y: Word)
    ensures AndNotW(x, ONES - y) == AndW(y, x)
  {
    XorW_Ones(y);
    Pow2At32(); OpsBound(x, ONES - y, 32); OpsBound(y, x, 32);
    forall i: nat ensures Bit(AndNotW(x, ONES - y), i) == Bit(AndW(y, x), i) {
      AndNotBit(x, ONES - y, i); AndBit(y, x, i); XorBit(y, ONES, i);
      OnesBit(i); Above(x, i);
    }
    BitsEqual(AndNotW(x, ONES - y), AndW(y, x), 32);
  }

  /** All-ones has exactly the bits below 32. */
  lemma OnesBit(i: nat)
    ensures Bit(ONES, i) == if i < 32 then 1 else 0
  {
    Pow2At32();
    LowBits(32, i);
  }

  lemma {:induction false} LowBits(n: nat, i: nat)
    ensures Bit(Pow2(n) - 1, i) == if i < n then 1 else 0
    decreases n
  {
    if n == 0 { BitZero(i); }
    else if i > 0 {
      assert (Pow2(n) - 1) / 2 == Pow2(n - 1) - 1;
      LowBits(n - 1, i - 1);
    }
  }

  /** A word has no bit from 32 up. */
  lemma Above(x: Word, i: nat)
    ensures i >= 32 ==> Bit(x, i) == 0
  {
    if i >= 32 { Pow2At32(); HighBit(x, 32, i); }
  }

  lemma {:induction false} HighBit(x: nat, n: nat, i: nat)
    requires x < Pow2(n) && n <= i
    ensures Bit(x, i) == 0
    decreases n
  {
    if n == 0 { BitZero(i); } else { HighBit(x / 2, n - 1, i - 1); }
  }

  /** Two sniffed cells are summed into the accumulator. */
  lemma SniffTwo(s: State, r: Regs, a: Loc, b: Loc)
    requires r.Ok() && Normal(s) && Cell(a) && Opnd(r, b)
    ensures RunBlocks(s, [Sn(r, a), Sn(r, b)]) ==
            Fall(Put(s, Mem(r.env.nul), Val(s, b)).(acc := Add(Add(s.acc, Val(s, a)), Val(s, b))))
  {
    hide ExecBlock, RunBlocks;
    Run2(s, Sn(r, a), Sn(r, b));
    SniffExec(s, r, a);
    var s1 := ExecBlock(s, Sn(r, a));
    SniffExec(s1, r, b);
    assert Val(s1, b) == Val(s, b);
    assert s1.mem[r.env.nul / 4 := Val(s, b)] == s.mem[r.env.nul / 4 := Val(s, b)];
  }

  /** The four blocks that leave a - b in the accumulator. */
  lemma SubIntoMeans(s: State, r: Regs, a: Loc, b: Loc)
    requires r.Ok() && Normal(s) && Opnd(r, a) && Opnd(r, b)
    requires ONES in r.env.lits && Val(s, r.Lit(ONES)) == ONES && Val(s, r.Lit(1)) == 1
    ensures AllOk(SubInto(r, a, b))
    ensures RunBlocks(s, SubInto(r, a, b)) == Fall(Put(s, Mem(r.env.nul), Val(s, a)).(acc := Sub(Val(s, a), Val(s, b))))
  {
    hide ExecBlock, RunBlocks, XorW;
    var one, ones := r.Lit(1), r.Lit(ONES);
    Aliased(s, b, ones); XorW_Ones(Val(s, b));
    var s1 := s.(acc := ONES - Val(s, b));
    SniffTwo(s1, r, one, a);
    RunSplit(s, [Pl(b, Acc), Pl(ones, AccXor)], [Sn(r, one), Sn(r, a)]);
  }

  lemma SubMeans(s: State, r: Regs, a: Loc, b: Loc, d: Loc)
    requires r.Ok() && Normal(s) && Opnd(r, a) && Opnd(r, b) && Cell(d)
    requires ONES in r.env.lits && Val(s, r.Lit(ONES)) == ONES && Val(s, r.Lit(1)) == 1
    ensures AllOk(SubM(r, a, b, d))
    ensures var v := Sub(Val(s, a), Val(s, b));
            RunBlocks(s, SubM(r, a, b, d)) == Fall(Put(Put(s, Mem(r.env.nul), Val(s, a)), d, v).(acc := v))
  {
    hide ExecBlock, RunBlocks;
    SubIntoMeans(s, r, a, b);
    Stored(s, SubInto(r, a, b), Put(s, Mem(r.env.nul), Val(s, a)).(acc := Sub(Val(s, a), Val(s, b))), d);
  }

  /** add; with b == a it is the shift left by one. */
  lemma AddMeans(s: State, r: Regs, a: Loc, b: Loc, d: Loc)
    requires r.Ok() && Normal(s) && Cell(a) && Cell(b) && Cell(d)
    ensures AllOk(AddM(r, a, b, d)) && (a == b ==> ShlM(r, a, d) == AddM(r, a, b, d))
    ensures var v := Add(Val(s, a), Val(s, b));
            RunBlocks(s, AddM(r, a, b, d)) == Fall(Put(Put(s, Mem(r.env.nul), Val(s, b)), d, v).(acc := v))
  {
    hide ExecBlock, RunBlocks;
    LoadExec(s, a);
    var s1 := s.(acc := Val(s, a));
    SniffExec(s1, r, b);
    Run2(s, Pl(a, Acc), Sn(r, b));
    Stored(s, [Pl(a, Acc), Sn(r, b)], ExecBlock(s1, Sn(r, b)), d);
    assert AddM(r, a, b, d) == [Pl(a, Acc), Sn(r, b)] + [Pl(Acc, d)];
  }
}
