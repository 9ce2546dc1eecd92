/** The assembler instructions of lowered code, as macros: with the program's words in memory cells,
    the blocks each expands to, in either encoding, do to the cells what the instruction does. */
module Backing {
  import opened Words
  import opened Core
  import opened Planner
  import opened Compact
  import opened Macros
  import opened Meaning
  import opened Dispatch
  import opened Rules
  import opened Expansion
  import Asm

  /** Where the words are; the zero register is the assembler's. */
  datatype Home = Home(r: Regs, at: int -> int)

  /** Words have cells of their own, apart from the scratch cells and the literal pool. */
  ghost predicate HomeOk(h: Home) {
    && h.r.Ok() && h.at(Asm.ZERO) == h.r.zero
    && (forall c :: h.at(c) % 4 == 0 && h.at(c) != h.r.env.nul && h.at(c) != h.r.env.at && h.at(c) != h.r.at2)
    && (forall c, d :: h.at(c) == h.at(d) ==> c == d)
    && forall c :: c != Asm.ZERO ==> !h.r.env.Pool(h.at(c) / 4)
  }

  /** The machine's cells hold the program's words. */
  ghost predicate Backs(h: Home, s: Asm.Cells, m: State) {
    HomeOk(h) && Loaded(h.r, m) && forall c :: Val(m, Mem(h.at(c))) == Asm.Get(s, c)
  }

  function LocOf(h: Home, o: Asm.Opd): Loc
    requires o.Imm? ==> o.k in h.r.env.lits
  {
    match o case Cell(c) => Mem(h.at(c)) case Imm(k) => h.r.Lit(k)
  }

  predicate Pooled(h: Home, x: Asm.Ins) {
    match x
    case Move(a, _) => a.Imm? ==> a.k in h.r.env.lits
    case Bin(_, a, b, _) => (a.Imm? ==> a.k in h.r.env.lits) && (b.Imm? ==> b.k in h.r.env.lits)
    case Mulc(a, _, _) => a.Imm? ==> a.k in h.r.env.lits
    case Lane(_, _, _, _, _, n) => n > 0
  }

  const WORD: MoveFlags := MoveFlags(4, false, false, false, false, 1, 0, false)

  /** The macro an instruction is written as. */
  function MacroOf(h: Home, x: Asm.Ins): Macro
    requires Pooled(h, x)
  {
    match x
    case Move(a, d) => MoveTo(LocOf(h, a), Mem(h.at(d)), WORD)
    case Bin(op, a, b, d) =>
      (match op
       case ADD => Rules.Add(LocOf(h, a), LocOf(h, b), Mem(h.at(d)))
       case SUB => Rules.Sub(LocOf(h, a), LocOf(h, b), Mem(h.at(d)))
       case OR => Rules.Or(LocOf(h, a), LocOf(h, b), Mem(h.at(d)))
       case XOR => Rules.Xor(LocOf(h, a), LocOf(h, b), Mem(h.at(d)))
       case ANDN => Rules.AndNot(LocOf(h, a), LocOf(h, b), Mem(h.at(d))))
    case Mulc(a, k, d) => Rules.Mulc(LocOf(h, a), k, Mem(h.at(d)))
    case Lane(a, i, d, j, size, n) =>
      if size == 2 then
        MoveTo(Mem(h.at(a) + i), Mem(h.at(d) + j), MoveFlags(2, false, false, false, false, 1, 0, false))
      else
        MoveTo(Mem(h.at(a) + i), Mem(h.at(d) + j), MoveFlags(1, false, false, true, true, Wrap(n), 0, false))
  }

  // ----- one instruction -----

  lemma {:induction false} OperandIs(h: Home, s: Asm.Cells, m: State, o: Asm.Opd)
    requires Backs(h, s, m) && (o.Imm? ==> o.k in h.r.env.lits)
    ensures Opnd(h.r, LocOf(h, o)) && LocOf(h, o).addr != h.r.env.at && Val(m, LocOf(h, o)) == Asm.Val(s, o)
  {
  }

  /** A word put into a cell. */
  lemma {:induction false} PutBacks(h: Home, s: Asm.Cells, m: State, m': State, d: int, v: Word)
    requires Backs(h, s, m) && d != Asm.ZERO && Normal(m')
    requires Val(m', Mem(h.at(d))) == v
    requires forall i :: i != h.at(d) / 4 && i != h.r.env.nul / 4 ==> Peek(m'.mem, i) == Peek(m.mem, i)
    ensures Backs(h, s[d := v], m')
  {
    forall c ensures Val(m', Mem(h.at(c))) == Asm.Get(s[d := v], c) {
      assert Val(m, Mem(h.at(c))) == Asm.Get(s, c);
      assert c != d ==> h.at(c) / 4 != h.at(d) / 4;
      assert h.at(c) / 4 != h.r.env.nul / 4;
    }
    forall k | k in h.r.env.lits ensures Val(m', h.r.Lit(k)) == k {
      assert h.r.env.Pool(h.r.env.lits[k] / 4);
      assert Val(m, h.r.Lit(k)) == k;
    }
    assert Val(m', Mem(h.at(Asm.ZERO))) == 0;
  }

  lemma {:induction false} OrBoth(a: nat, b: nat)
    ensures Words.Or(a, b) == Words.Or(b, a) && Words.Xor(a, b) == Words.Xor(b, a)
    decreases a, b
  {
    if a > 0 && b > 0 { OrBoth(a / 2, b / 2); } else if a > 0 { Zeros(a); } else { Zeros(b); }
  }

  lemma {:induction false} Zeros(a: nat)
    ensures Words.Or(a, 0) == a == Words.Or(0, a) && Words.Xor(a, 0) == a == Words.Xor(0, a)
  {
    if a > 0 { Zeros(a / 2); }
  }

  lemma {:induction false} WordsCommute(a: Word, b: Word)
    ensures OrW(a, b) == OrW(b, a) && XorW(a, b) == XorW(b, a)
  {
    OrBoth(a, b);
  }

  /** What an instruction leaves behind: the words it computes, from wherever it falls through. */
  ghost predicate Backed(e: Enc, h: Home, s: Asm.Cells, m: State, x: Asm.Ins)
    requires PoolHas(e, h.r) && Pooled(h, x) && Asm.InsOk(x)
  {
    && Named(h.r, MacroOf(h, x)) && AllOk(Expand(e, h.r, MacroOf(h, x)))
    && var o := RunBlocks(m, Expand(e, h.r, MacroOf(h, x)));
       o.Fall? && Backs(h, Asm.Exec(s, x), o.s)
  }

  /** Only the destination and the null cell change, and nothing a later instruction rests on. */
  ghost predicate Touched(h: Home, m: State, m': State, d: int, v: Word) {
    && Normal(m') && Val(m', Mem(h.at(d))) == v
    && forall i :: i != h.at(d) / 4 && i != h.r.env.nul / 4 ==> Peek(m'.mem, i) == Peek(m.mem, i)
  }

  lemma {:induction false} BinReady(e: Enc, h: Home, s: Asm.Cells, m: State, x: Asm.Ins)
    requires Backs(h, s, m) && PoolHas(e, h.r) && Pooled(h, x) && Asm.InsOk(x) && (x.Bin? || x.Mulc?)
    ensures Named(h.r, MacroOf(h, x)) && Sourced(e, h.r, m, MacroOf(h, x))
  {
    OperandIs(h, s, m, x.a);
    if x.Bin? { OperandIs(h, s, m, x.b); }
  }

  lemma {:induction false} ResultTouches(h: Home, m: State, m1: State, d: int, v: Word)
    requires HomeOk(h) && Normal(m) && (m1 == m || exists u: Word :: m1 == Put(m, Mem(h.r.env.nul), u))
    ensures Result(m1, Mem(h.at(d)), v).Fall? && Touched(h, m, Result(m1, Mem(h.at(d)), v).s, d, v)
  {
  }

  lemma {:induction false} MulTouches(e: Enc, h: Home, s: Asm.Cells, m: State, x: Asm.Ins, o: Outcome)
    requires Backs(h, s, m) && PoolHas(e, h.r) && Pooled(h, x) && Asm.InsOk(x) && x.Mulc?
    requires Sourced(e, h.r, m, MacroOf(h, x)) && Meant(e, h.r, m, MacroOf(h, x), o)
    ensures o.Fall? && Touched(h, m, o.s, x.d, Wrap(x.k * Asm.Val(s, x.a)))
  {
    hide Wrap;
    OperandIs(h, s, m, x.a);
    assert h.at(x.d) % 4 == 0;
    hide HomeOk, Pooled;
  }

  lemma {:induction false} BinTouches(e: Enc, h: Home, s: Asm.Cells, m: State, x: Asm.Ins, o: Outcome)
    requires Backs(h, s, m) && PoolHas(e, h.r) && Pooled(h, x) && Asm.InsOk(x) && x.Bin?
    requires Sourced(e, h.r, m, MacroOf(h, x)) && Meant(e, h.r, m, MacroOf(h, x), o)
    ensures o.Fall? && Touched(h, m, o.s, x.d, Asm.Apply(x.op, Asm.Val(s, x.a), Asm.Val(s, x.b)))
  {
    hide OrW, XorW, AndNotW, Wrap, Words.Add, Words.Sub, HomeOk, Touched, Result;
    OperandIs(h, s, m, x.a);
    OperandIs(h, s, m, x.b);
    var a, b := Asm.Val(s, x.a), Asm.Val(s, x.b);
    WordsCommute(a, b);
    var m1 := match x.op
      case ADD => Put(m, Mem(h.r.env.nul), b)
      case SUB => Put(m, Mem(h.r.env.nul), a)
      case _ => m;
    assert o == Result(m1, Mem(h.at(x.d)), Asm.Apply(x.op, a, b));
    ResultTouches(h, m, m1, x.d, Asm.Apply(x.op, a, b));
  }

  lemma {:induction false} SumBacked(e: Enc, h: Home, s: Asm.Cells, m: State, x: Asm.Ins)
    requires Backs(h, s, m) && PoolHas(e, h.r) && Pooled(h, x) && Asm.InsOk(x) && (x.Bin? || x.Mulc?)
    ensures Backed(e, h, s, m, x)
  {
    var mac, d := MacroOf(h, x), x.d;
    var v := if x.Bin? then Asm.Apply(x.op, Asm.Val(s, x.a), Asm.Val(s, x.b)) else Wrap(x.k * Asm.Val(s, x.a));
    assert Asm.Exec(s, x) == s[d := v];
    hide RunBlocks, Expand, Backs, Pooled, MacroOf, Asm.Apply, Sourced, Meant, Wrap;
    BinReady(e, h, s, m, x);
    ExpandMeans(e, h.r, m, mac);
    var o := RunBlocks(m, Expand(e, h.r, mac));
    if x.Bin? { BinTouches(e, h, s, m, x, o); } else { MulTouches(e, h, s, m, x, o); }
    PutBacks(h, s, m, o.s, d, v);
  }

  // ----- moves -----

  lemma {:induction false} MoveBacked(e: Enc, h: Home, s: Asm.Cells, m: State, x: Asm.Ins)
    requires Backs(h, s, m) && PoolHas(e, h.r) && Pooled(h, x) && Asm.InsOk(x) && x.Move?
    ensures Backed(e, h, s, m, x)
  {
    OperandIs(h, s, m, x.a);
    var src, dst := LocOf(h, x.a), Mem(h.at(x.d));
    assert Cell(src) && Cell(dst);
    assert MoveBlock(src, dst, WORD) == Pl(src, dst);
    PlainMove(m, src, dst);
    hide RunBlocks;
    PutFrame(h, s, m, x.d, Asm.Val(s, x.a));
  }

  /** Fields moved one by one between two cells, both addresses walking. */
  lemma {:induction false} LanesBack(h: Home, s: Asm.Cells, m: State, a: int, i: int, d: int, j: int, n: nat)
    requires Backs(h, s, m) && d != Asm.ZERO && Asm.LaneOk(i, j, 1, n)
    ensures Aligned(Mem(h.at(a) + i), 1) && Aligned(Mem(h.at(d) + j), 1)
    ensures var m' := Burst(m, Mem(h.at(a) + i), Mem(h.at(d) + j), Mode(1, true, true, false, false), n);
            Backs(h, Asm.Lanes(s, a, i, d, j, 1, n), m') && m'.pc == m.pc
    decreases n
  {
    hide Backs, HomeOk, Burst, Asm.Lanes, PutField, Words.Field;
    var A, D, md := h.at(a), h.at(d), Mode(1, true, true, false, false);
    CellFacts(h, s, m, a); CellFacts(h, s, m, d);
    ByteAligned(A, i); ByteAligned(D, j);
    if n == 0 {
      NoLanes(s, m, a, i, d, j, Mem(A + i), Mem(D + j));
    } else {
      var v := PutField(Asm.Get(s, d), j, 1, Words.Field(Asm.Get(s, a), i, 1));
      var m1 := Put(m, Mem(D), v);
      FieldMoves(m, A, i, D, j, md);
      Unrolled(m, Mem(A + i), Mem(D + j), md, n - 1);
      PutFrame(h, s, m, d, v);
      LanesBack(h, s[d := v], m1, a, i + 1, d, j + 1, n - 1);
      LanesStep(s, a, i, d, j, n);
    }
  }

  lemma CellFacts(h: Home, s: Asm.Cells, m: State, c: int)
    requires Backs(h, s, m)
    ensures h.at(c) % 4 == 0 && Val(m, Mem(h.at(c))) == Asm.Get(s, c) && Normal(m)
  {
  }

  lemma ByteAligned(a: int, i: int)
    requires a % 4 == 0 && 0 <= i <= 4
    ensures Aligned(Mem(a + i), 1)
  {
  }

  lemma NoLanes(s: Asm.Cells, m: State, a: int, i: int, d: int, j: int, x: Loc, y: Loc)
    requires Asm.LaneOk(i, j, 1, 0) && Aligned(x, 1) && Aligned(y, 1)
    ensures Asm.Lanes(s, a, i, d, j, 1, 0) == s && Burst(m, x, y, Mode(1, true, true, false, false), 0) == m
  {
  }

  lemma LanesStep(s: Asm.Cells, a: int, i: int, d: int, j: int, n: nat)
    requires Asm.LaneOk(i, j, 1, n) && n > 0
    ensures Asm.LaneOk(i + 1, j + 1, 1, n - 1)
    ensures var v := PutField(Asm.Get(s, d), j, 1, Words.Field(Asm.Get(s, a), i, 1));
            Asm.Lanes(s, a, i, d, j, 1, n) == Asm.Lanes(s[d := v], a, i + 1, d, j + 1, 1, n - 1)
  {
    hide PutField, Words.Field;
  }

  /** A word put into its cell and nothing else. */
  lemma PutFrame(h: Home, s: Asm.Cells, m: State, d: int, v: Word)
    requires Backs(h, s, m) && d != Asm.ZERO
    ensures Backs(h, s[d := v], Put(m, Mem(h.at(d)), v))
  {
    hide HomeOk;
    PutBacks(h, s, m, Put(m, Mem(h.at(d)), v), d, v);
  }

  /** One field moved between two cells. */
  lemma FieldMoves(m: State, A: int, i: int, D: int, j: int, md: Mode)
    requires A % 4 == 0 && D % 4 == 0 && md.Ok() && !md.bswap && !md.sniff
    requires Words.Fits(i, md.size) && Words.Fits(j, md.size)
    ensures Aligned(Mem(A + i), md.size) && Aligned(Mem(D + j), md.size)
    ensures Move(m, Mem(A + i), Mem(D + j), md)
         == Put(m, Mem(D), PutField(Val(m, Mem(D)), j, md.size, Words.Field(Val(m, Mem(A)), i, md.size)))
  {
    CellByte(A, i);
    CellByte(D, j);
    hide PutField, Words.Field;
  }

  lemma {:induction false} LaneBacked(e: Enc, h: Home, s: Asm.Cells, m: State, x: Asm.Ins)
    requires Backs(h, s, m) && PoolHas(e, h.r) && Pooled(h, x) && Asm.InsOk(x) && x.Lane?
    ensures Backed(e, h, s, m, x)
  {
    hide Backs, HomeOk, RunBlocks, Expand, Burst, Asm.Lanes, PoolHas;
    var mac := MacroOf(h, x);
    LaneReady(e, h, s, m, x);
    ExpandMeans(e, h.r, m, mac);
    if x.size == 2 {
      HalfBack(h, s, m, x);
    } else {
      LanesBack(h, s, m, x.from, x.i, x.d, x.j, x.n);
    }
  }

  lemma {:induction false} LaneReady(e: Enc, h: Home, s: Asm.Cells, m: State, x: Asm.Ins)
    requires Backs(h, s, m) && PoolHas(e, h.r) && Pooled(h, x) && Asm.InsOk(x) && x.Lane?
    ensures Named(h.r, MacroOf(h, x)) && Sourced(e, h.r, m, MacroOf(h, x))
  {
    var A, D := h.at(x.from), h.at(x.d);
    assert A % 4 == 0 && D % 4 == 0;
    CellByte(A, x.i); CellByte(D, x.j);
    hide HomeOk;
  }

  lemma {:induction false} HalfBack(h: Home, s: Asm.Cells, m: State, x: Asm.Ins)
    requires Backs(h, s, m) && Asm.InsOk(x) && x.Lane? && x.size == 2
    ensures Aligned(Mem(h.at(x.from) + x.i), 2) && Aligned(Mem(h.at(x.d) + x.j), 2)
    ensures Backs(h, Asm.Exec(s, x), Burst(m, Mem(h.at(x.from) + x.i), Mem(h.at(x.d) + x.j),
                                           Mode(2, false, false, false, false), 1))
  {
    hide Backs, HomeOk, Burst, PutField, Words.Field, Move;
    var A, D, md := h.at(x.from), h.at(x.d), Mode(2, false, false, false, false);
    CellFacts(h, s, m, x.from); CellFacts(h, s, m, x.d);
    FieldMoves(m, A, x.i, D, x.j, md);
    Unrolled(m, Mem(A + x.i), Mem(D + x.j), md, 0);
    var v := PutField(Asm.Get(s, x.d), x.j, 2, Words.Field(Asm.Get(s, x.from), x.i, 2));
    NoMoves(Put(m, Mem(D), v), Mem(A + x.i), Mem(D + x.j), md);
    HalfExec(s, x);
    PutFrame(h, s, m, x.d, v);
  }

  lemma NoMoves(m: State, a: Loc, d: Loc, md: Mode)
    requires md.Ok() && Aligned(a, md.size) && Aligned(d, md.size)
    ensures Burst(m, a, d, md, 0) == m
  {
  }

  lemma HalfExec(s: Asm.Cells, x: Asm.Ins)
    requires Asm.InsOk(x) && x.Lane? && x.size == 2
    ensures Words.Fits(x.i, 2) && Words.Fits(x.j, 2) && x.d != Asm.ZERO
    ensures Asm.Exec(s, x)
         == s[x.d := PutField(Asm.Get(s, x.d), x.j, 2, Words.Field(Asm.Get(s, x.from), x.i, 2))]
  {
    hide PutField, Words.Field;
  }

  // ----- lowered code -----

  /** Every instruction, in both encodings. */
  lemma {:induction false} InsBacked(e: Enc, h: Home, s: Asm.Cells, m: State, x: Asm.Ins)
    requires Backs(h, s, m) && PoolHas(e, h.r) && Pooled(h, x) && Asm.InsOk(x)
    ensures Backed(e, h, s, m, x)
  {
    hide Backs, Backed, Pooled, PoolHas, Asm.InsOk;
    match x
    case Move(_, _) => MoveBacked(e, h, s, m, x);
    case Lane(_, _, _, _, _, _) => LaneBacked(e, h, s, m, x);
    case _ => SumBacked(e, h, s, m, x);
  }

  ghost predicate AllPooled(e: Enc, h: Home, code: seq<Asm.Ins>) {
    PoolHas(e, h.r) && forall i :: 0 <= i < |code| ==> Pooled(h, code[i]) && Named(h.r, MacroOf(h, code[i]))
  }

  /** The blocks of a stretch of code. */
  ghost function Blocks(e: Enc, h: Home, code: seq<Asm.Ins>): seq<Block>
    requires AllPooled(e, h, code)
  {
    if code == [] then [] else Expand(e, h.r, MacroOf(h, code[0])) + Blocks(e, h, code[1..])
  }

  /** So whatever the lowerings prove of straight-line code holds of its blocks. */
  lemma {:induction false} CodeBacked(e: Enc, h: Home, s: Asm.Cells, m: State, code: seq<Asm.Ins>)
    requires Backs(h, s, m) && AllPooled(e, h, code) && Asm.CodeOk(code)
    ensures AllOk(Blocks(e, h, code)) && RunBlocks(m, Blocks(e, h, code)).Fall?
    ensures Backs(h, Asm.Run(s, code), RunBlocks(m, Blocks(e, h, code)).s)
    decreases |code|
  {
    hide Backs, Expand, MacroOf, Pooled, Named, Asm.Exec, Asm.InsOk, PoolHas;
    if code != [] {
      InsBacked(e, h, s, m, code[0]);
      var bs := Expand(e, h.r, MacroOf(h, code[0]));
      var m1 := RunBlocks(m, bs).s;
      assert AllPooled(e, h, code[1..]) && Asm.CodeOk(code[1..]);
      hide RunBlocks;
      CodeBacked(e, h, Asm.Exec(s, code[0]), m1, code[1..]);
      RunSplit(m, bs, Blocks(e, h, code[1..]));
    }
  }

  lemma CellByte(a: int, i: int)
    requires a % 4 == 0 && 0 <= i < 4
    ensures (a + i) / 4 == a / 4 && (a + i) % 4 == i
  {
  }
}
