/** Every assembler macro's compact block sequence meets the mode-domain rules, whatever the
    machine state; so the compact encoding preserves its meaning. */
module Rules {
  import opened Words
  import opened Core
  import opened Planner
  import opened Compact
  import opened Refinement
  import opened Macros
  import opened Meaning
  import opened Dispatch

  // ----- a static rule check -----

  /** The incrementing byte banks whose count a program has set for a coming dyncount move. */
  datatype Pend = Pend(w: bool, rw: bool) {
    function Banks(): set<int> {
      (if w then {SIZE8W} else {}) + (if rw then {SIZE8RW} else {})
    }
  }

  /** Where a macro stands: on the sniff bank or the plain one, whether the accumulator is live,
      whether at agrees, and which bank counts wait for their dyncount move. */
  datatype Dom = Dom(sniff: bool, live: bool, atOk: bool, pend: Pend) {
    function Planner(): PState {
      CANON.(bank := if sniff then SNIFF else PLAIN)
    }

    function Flags(): Flags {
      Refinement.Flags(live, atOk, pend.Banks())
    }
  }

  /** A single-transfer block of the kind macros are made of. */
  predicate Single(b: Block) {
    && b.Block? && b.count == 1 && !b.dyn && (b.bank == PLAIN || b.bank == SNIFF || b.bank == BSWAP) && b.Ok()
    && (b.src.Mem? || b.src == Acc) && !b.dst.Count? && (b.dst == Pc ==> b.bank == PLAIN)
  }

  predicate InPlace(m: Dom, b: Block)
    requires b.Block?
  {
    m.sniff && b.bank == PLAIN && b.src == Acc
  }

  predicate Leaving(m: Dom, b: Block)
    requires b.Block?
  {
    m.sniff && !InPlace(m, b) && b.bank != SNIFF
  }

  ghost predicate Allowed(env: Env, m: Dom, b: Block) {
    && Single(b) && SrcOk(env, m.atOk, b.src) && DstOk(env, b.dst)
    && (AccUse(b) ==> m.live && !Leaving(m, b))
  }

  function DomNext(env: Env, m: Dom, b: Block): Dom
    requires b.Block?
  {
    var read := InPlace(m, b);
    Dom(if read then b.dst != Pc else b.bank == SNIFF,
        !read && (b.dst == Acc || (m.live && !Leaving(m, b))),
        if read && b.dst == Pc then false else m.atOk || b.dst == Mem(env.at),
        m.pend)
  }

  /** Jump slots behind a dispatch, which alone leads to them. */
  predicate Slotted(bs: seq<Block>) {
    forall i :: 0 <= i < |bs| ==> Single(bs[i]) && bs[i].dst == Pc && bs[i].src.Mem?
  }

  /** Every block is allowed where it stands, and nothing but jump slots follows a jump. */
  ghost predicate Passes(env: Env, m: Dom, bs: seq<Block>)
    decreases |bs|
  {
    bs == [] ||
    (Allowed(env, m, bs[0]) && if bs[0].dst == Pc then Slotted(bs[1..])
        else Passes(env, DomNext(env, m, bs[0]), bs[1..]))
  }

  ghost function DomAfter(env: Env, m: Dom, bs: seq<Block>): Dom
    decreases |bs|
  {
    if bs == [] || !bs[0].Block? then m else DomAfter(env, DomNext(env, m, bs[0]), bs[1..])
  }

  predicate NoJump(bs: seq<Block>) {
    forall i :: 0 <= i < |bs| ==> bs[i].Block? && bs[i].dst != Pc
  }

  lemma {:induction false} PassSplit(env: Env, m: Dom, bs: seq<Block>, cs: seq<Block>)
    requires NoJump(bs) && Passes(env, m, bs)
    ensures DomAfter(env, m, bs + cs) == DomAfter(env, DomAfter(env, m, bs), cs)
    ensures Passes(env, m, bs + cs) <==> Passes(env, DomAfter(env, m, bs), cs)
    decreases |bs|
  {
    hide Allowed, DomNext;
    if bs == [] {
      assert bs + cs == cs;
    } else {
      assert (bs + cs)[1..] == bs[1..] + cs;
      PassSplit(env, DomNext(env, m, bs[0]), bs[1..], cs);
    }
  }

  lemma StepMatches(env: Env, m: Dom, c: State, b: Block)
    requires env.Ok() && Allowed(env, m, b)
    ensures BlockOk(env, m.Planner(), m.Flags(), c, b)
    ensures b.dst != Pc ==> Plan(m.Planner(), ShapeOf(b)).st == DomNext(env, m, b).Planner()
    ensures After(env, m.Planner(), m.Flags(), b) == DomNext(env, m, b).Flags()
  {
    var st, s := m.Planner(), ShapeOf(b);
    assert !st.Stale(b.bank, 1);
    assert Deferred(st, s) <==> InPlace(m, b);
    assert WalkOk(env, m.atOk, Next(b.src, BankMode(b.bank).incrR, BankMode(b.bank).size),
                  Next(b.dst, BankMode(b.bank).incrW, BankMode(b.bank).size), BankMode(b.bank), 0);
  }

  /** A sequence that passes the static check obeys the rules along every run. */
  lemma {:induction false} PassObeys(env: Env, m: Dom, c: State, bs: seq<Block>)
    requires env.Ok() && Passes(env, m, bs)
    ensures AllOk(bs) && LitsFor(env, bs)
    ensures Obeys(env, m.Planner(), m.Flags(), c, bs)
    decreases |bs|
  {
    assert bs != [] ==> bs[0].Block? && bs[0].Ok() && ShapeOf(bs[0]).Times() == 1;
    hide BlockOk, Allowed, After, Plan, DomNext;
    if bs != [] {
      StepMatches(env, m, c, bs[0]);
      if bs[0].dst != Pc {
        PassObeys(env, DomNext(env, m, bs[0]), ExecBlock(c, bs[0]), bs[1..]);
      } else {
        SlotsOk(env, bs[1..]);
        hide ShapeOf;
        assert forall i :: 1 <= i < |bs| ==> bs[i] == bs[1..][i - 1];
      }
    }
  }

  lemma SlotsOk(env: Env, bs: seq<Block>)
    requires env.Ok() && Slotted(bs)
    ensures AllOk(bs) && LitsFor(env, bs)
  {
    forall i | 0 <= i < |bs| ensures bs[i].Ok() && ShapeOf(bs[i]).Times() in env.lits { assert Single(bs[i]); }
  }

  /** Slots behind code that ends in its only jump. */
  lemma PassSlots(env: Env, m: Dom, bs: seq<Block>, b: Block, cs: seq<Block>)
    requires NoJump(bs) && b.Block? && b.dst == Pc && Passes(env, m, bs + [b]) && Slotted(cs)
    ensures Passes(env, m, bs + [b] + cs)
  {
    hide Allowed, DomNext, Single;
    PassPrefix(env, m, bs, b);
    PassSplit(env, m, bs, [b]);
    PassSplit(env, m, bs, [b] + cs);
    assert bs + [b] + cs == bs + ([b] + cs);
    assert ([b] + cs)[1..] == cs && ([b] + cs)[0] == b;
  }

  lemma {:induction false} PassPrefix(env: Env, m: Dom, bs: seq<Block>, b: Block)
    requires NoJump(bs) && Passes(env, m, bs + [b])
    ensures Passes(env, m, bs)
    decreases |bs|
  {
    hide Allowed, DomNext;
    if bs != [] {
      assert (bs + [b])[1..] == bs[1..] + [b];
      PassPrefix(env, DomNext(env, m, bs[0]), bs[1..], b);
    }
  }

  // ----- the macros -----

  /** The flags of a move: its field size, modes and transfer count, or a count in whole words. */
  datatype MoveFlags = MoveFlags(size: int, sniff: bool, bswap: bool, incrR: bool, incrW: bool, count: Word,
      words: Word, dyn: bool)

  /** The flags the assembler takes: counts are positive, wcount stands alone, and dyncount is
      for compact code. */
  predicate FlagsTaken(e: Enc, fl: MoveFlags) {
    && (fl.size == 1 || fl.size == 2 || fl.size == 4) && fl.count > 0 && (fl.dyn ==> e == Compact)
    && (fl.words != 0 ==> fl.size == 4 && fl.count == 1 && !fl.dyn)
  }

  /** wcount moves whole words in classic code, and bytes in compact code. */
  function FieldSize(e: Enc, fl: MoveFlags): int {
    if fl.words == 0 then fl.size else if e == Compact then 1 else 4
  }

  function FieldCount(e: Enc, fl: MoveFlags): Word {
    if fl.words == 0 then fl.count else if e == Compact then Wrap(4 * fl.words) else fl.words
  }

  /** The bank whose CTRL word is the move's, or -1 where no bank has it. */
  function BankFor(size: int, sniff: bool, bswap: bool, incrR: bool, incrW: bool): int {
    if sniff && !bswap && !incrR && !incrW && size == 4 then SNIFF
    else if bswap && !sniff && !incrR && !incrW && size == 4 then BSWAP
    else if !sniff && !bswap && size == 1 then
      (if !incrR && !incrW then SIZE8 else if !incrR then SIZE8W else if incrW then SIZE8RW else -1)
    else if !sniff && !bswap && !incrR && !incrW && size == 2 then SIZE16
    else if !sniff && !bswap && !incrR && !incrW && size == 4 then PLAIN
    else -1
  }

  /** The chosen bank moves as the flags say, and every expressible combination has one. */
  lemma BankForMode(size: int, sniff: bool, bswap: bool, incrR: bool, incrW: bool)
    requires size == 1 || size == 2 || size == 4
    ensures var b, md := BankFor(size, sniff, bswap, incrR, incrW), Mode(size, incrR, incrW, bswap, sniff);
            (b >= 0 ==> b < BANKS && BankMode(b) == md) && (b < 0 ==> forall k :: 0 <= k < BANKS ==> BankMode(k) != md)
  {
  }

  datatype Macro =
    | Add(a: Loc, b: Loc, d: Loc)
    | Sub(a: Loc, b: Loc, d: Loc)
    | Or(a: Loc, b: Loc, d: Loc)
    | Xor(a: Loc, b: Loc, d: Loc)
    | AndNot(a: Loc, b: Loc, d: Loc)
    | And(a: Loc, b: Loc, d: Loc)
    | Shl(a: Loc, d: Loc)
    | Mulc(a: Loc, k: Word, d: Loc)
    | Jsign(a: Loc, pair: Loc)
    | Jneg(a: Loc, tramp: Loc, clear: Word, set1: Word)
    | Jbool(a: Loc, tramp: Loc, clear: Word, set1: Word)
    | Jeq(a: Loc, b: Loc, pair: Loc)
    | Jlt(a: Loc, b: Loc, pair: Loc)
    | Jltu(a: Loc, b: Loc, pair: Loc)
    | JumpTo(to: Word)
    | Jumpr(a: Loc)
    | Call(f: Word, ret: Word, lr: Loc)
    | Ret(lr: Loc)
    | Safepoint(resume: Word, irq: Loc, dispatch: Loc)
    | Gpio(v: Word, reg: Loc)
    | MoveTo(src: Loc, dst: Loc, fl: MoveFlags)
    | Nop
    | Halt

  predicate PoolHas(e: Enc, r: Regs) {
    ONES in r.env.lits && 0xFFFFFF7F in r.env.lits && JnegMask(e) in r.env.lits && 1 in r.env.lits
  }

  /** The literals a macro names are in the pool, and a move has a bank. */
  predicate Named(r: Regs, m: Macro) {
    match m
    case Jneg(_, _, x, y) => x in r.env.lits && y in r.env.lits
    case Jbool(_, _, x, y) => x in r.env.lits && y in r.env.lits
    case JumpTo(x) => x in r.env.lits
    case Call(x, y, _) => x in r.env.lits && y in r.env.lits
    case Safepoint(x, _, _) => x in r.env.lits
    case Gpio(x, _) => x in r.env.lits
    case MoveTo(_, _, fl) =>
        FlagsTaken(Compact, fl) && BankFor(FieldSize(Compact, fl), fl.sniff, fl.bswap, fl.incrR, fl.incrW) >= 0
    case _ => true
  }

  /** The two slots behind jneg and jbool. */
  function SlotsM(r: Regs, x: Word, y: Word): seq<Block>
    requires x in r.env.lits && y in r.env.lits
  {
    [Pl(r.Lit(x), Pc), Pl(r.Lit(y), Pc)]
  }

  function MoveBlock(src: Loc, dst: Loc, fl: MoveFlags): Block {
    Block(src, dst, FieldCount(Compact, fl), BankFor(FieldSize(Compact, fl), fl.sniff, fl.bswap, fl.incrR, fl.incrW),
        fl.dyn)
  }

  function Expand(e: Enc, r: Regs, m: Macro): seq<Block>
    requires PoolHas(e, r) && Named(r, m)
  {
    match m
    case Add(a, b, d) => AddM(r, a, b, d)
    case Sub(a, b, d) => SubM(r, a, b, d)
    case Or(a, b, d) => OrM(a, b, d)
    case Xor(a, b, d) => XorM(a, b, d)
    case AndNot(a, b, d) => AndNotM(a, b, d)
    case And(a, b, d) => AndM(r, a, b, d)
    case Shl(a, d) => ShlM(r, a, d)
    case Mulc(a, k, d) => MulcM(e, r, a, k, d)
    case Jsign(a, p) => JsignM(r, a, p)
    case Jneg(a, p, x, y) => JnegM(e, r, a, p) + SlotsM(r, x, y)
    case Jbool(a, p, x, y) => JboolM(e, r, a, p) + SlotsM(r, x, y)
    case Jeq(a, b, p) => JeqM(e, r, a, b, p)
    case Jlt(a, b, p) => JltM(e, r, a, b, p)
    case Jltu(a, b, p) => JltuM(e, r, a, b, p)
    case JumpTo(x) => [Pl(r.Lit(x), Pc)]
    case Jumpr(a) => [Pl(a, Pc)]
    case Call(x, y, lr) => [Pl(r.Lit(y), lr), Pl(r.Lit(x), Pc)]
    case Ret(lr) => [Pl(lr, Pc)]
    case Safepoint(x, irq, to) => [Pl(r.Lit(x), irq), Pl(to, Pc)]
    case Gpio(x, reg) => [Pl(r.Lit(x), reg)]
    case MoveTo(src, dst, fl) => [MoveBlock(src, dst, fl)]
    case Nop => [Block(Mem(r.zero), Mem(r.env.nul), 0, PLAIN, false)]
    case Halt => [HaltBlock]
  }

  /** A source cell that agrees on both sides, and a destination outside the pool. */
  ghost predicate Src(r: Regs, m: Dom, l: Loc) {
    Cell(l) && l.addr != r.env.nul && (m.atOk || l.addr != r.env.at)
  }

  ghost predicate Dst(r: Regs, l: Loc) {
    Cell(l) && !r.env.Pool(l.addr / 4)
  }

  /** What a macro asks of its operands, at a canonical boundary where d holds. */
  ghost predicate Operands(r: Regs, d: Dom, m: Macro) {
    match m
    case Add(a, b, d') => Src(r, d, a) && Src(r, d, b) && Dst(r, d')
    case Sub(a, b, d') => Src(r, d, a) && Src(r, d, b) && Dst(r, d')
    case Or(a, b, d') => Src(r, d, a) && Src(r, d, b) && Dst(r, d')
    case Xor(a, b, d') => Src(r, d, a) && Src(r, d, b) && Dst(r, d')
    case AndNot(a, b, d') => Src(r, d, a) && Src(r, d, b) && Dst(r, d')
    case And(a, b, d') => Src(r, d, a) && Src(r, d, b) && Dst(r, d')
    case Shl(a, d') => Src(r, d, a) && Dst(r, d')
    case Mulc(a, _, d') => Src(r, d, a) && Dst(r, d')
    case Jsign(a, p) => Src(r, d, a) && Src(r, d, p)
    case Jneg(a, p, _, _) => Src(r, d, a) && Src(r, d, p)
    case Jbool(a, p, _, _) => Src(r, d, a) && Src(r, d, p)
    case Jeq(a, b, p) => Src(r, d, a) && Src(r, d, b) && Src(r, d, p)
    case Jlt(a, b, p) => Src(r, d, a) && Src(r, d, b) && Src(r, d, p)
    case Jltu(a, b, p) => Src(r, d, a) && Src(r, d, b) && Src(r, d, p)
    case Jumpr(a) => Src(r, d, a) || (a == Acc && d.live)
    case Call(_, _, lr) => Dst(r, lr)
    case Ret(lr) => Src(r, d, lr)
    case Safepoint(_, irq, to) => Dst(r, irq) && Src(r, d, to)
    case Gpio(_, reg) => Dst(r, reg)
    case _ => true
  }

  /** The mode-domain rules of a move: counts only on the incrementing and size banks, the
      accumulator read or watched only while live, a dyncount move after its count was set, and
      every word its transfers touch one that may be touched. */
  ghost predicate MoveOk(r: Regs, f: Flags, c: State, blk: Block)
    requires blk.Block? && blk.Ok()
  {
    && blk.count > 0 && (blk.bank == PLAIN || blk.bank == SNIFF ==> blk.count == 1 && !blk.dyn)
    && (blk.dyn <==> blk.bank in f.pend) && ShapeOf(blk).Times() in r.env.lits
    && SrcOk(r.env, f.atOk, blk.src) && DstOk(r.env, blk.dst)
    && WalkOk(r.env, f.atOk, blk.src, blk.dst, BankMode(blk.bank), blk.Times(c))
    && (AccUse(blk) ==> f.live)
    && (blk.dst.Count? ==> blk.bank == PLAIN && (blk.dst.bank == SIZE8W || blk.dst.bank == SIZE8RW))
    && (blk.dst == Pc ==> blk.bank == PLAIN)
  }

  // Block kinds: each is allowed on the plain or the sniff bank under the stated condition.

  lemma Fixed(r: Regs, m: Dom)
    requires r.Ok()
    ensures Dst(r, Mem(r.env.nul)) && Dst(r, Mem(r.env.at)) && Dst(r, Mem(r.at2))
    ensures Src(r, m, Mem(r.zero)) && Src(r, m, Mem(r.at2))
    ensures forall v :: v in r.env.lits ==> Src(r, m, r.Lit(v))
  {
  }

  /** Seeding the accumulator makes it live; the plain and bswap banks are left at plain. */
  lemma LoadStep(r: Regs, m: Dom, x: Loc)
    requires r.Ok() && Src(r, m, x)
    ensures Allowed(r.env, m, Pl(x, Acc)) && DomNext(r.env, m, Pl(x, Acc)) == Dom(false, true, m.atOk, m.pend)
    ensures Allowed(r.env, m, Bs(x, Acc)) && DomNext(r.env, m, Bs(x, Acc)) == Dom(false, true, m.atOk, m.pend)
  {
  }

  lemma AliasStep(r: Regs, m: Dom, x: Loc)
    requires r.Ok() && Src(r, m, x) && m.live && !m.sniff
    ensures Allowed(r.env, m, Pl(x, AccXor)) && DomNext(r.env, m, Pl(x, AccXor)) == m
    ensures Allowed(r.env, m, Pl(x, AccSet)) && DomNext(r.env, m, Pl(x, AccSet)) == m
    ensures Allowed(r.env, m, Pl(x, AccClr)) && DomNext(r.env, m, Pl(x, AccClr)) == m
  {
  }

  lemma SniffStep(r: Regs, m: Dom, x: Loc)
    requires r.Ok() && (Src(r, m, x) || x == Acc) && m.live
    ensures Allowed(r.env, m, Sn(r, x)) && DomNext(r.env, m, Sn(r, x)) == m.(sniff := true)
  {
    Fixed(r, m);
  }

  /** A read of the accumulator runs in place on the sniff bank and then drops it. */
  lemma StoreStep(r: Regs, m: Dom, d: Loc)
    requires r.Ok() && Dst(r, d) && m.live
    ensures Allowed(r.env, m, Pl(Acc, d))
    ensures DomNext(r.env, m, Pl(Acc, d)) == Dom(m.sniff, !m.sniff, m.atOk || d == Mem(r.env.at), m.pend)
  {
  }

  lemma SwapOutStep(r: Regs, m: Dom)
    requires r.Ok() && m.live && !m.sniff
    ensures Allowed(r.env, m, Bs(Acc, Mem(r.env.at))) && DomNext(r.env, m, Bs(Acc, Mem(r.env.at))) == m.(atOk := true)
  {
    Fixed(r, m);
  }

  lemma Pass1(env: Env, m: Dom, b: Block)
    requires Allowed(env, m, b) && b.dst != Pc
    ensures NoJump([b]) && Passes(env, m, [b]) && DomAfter(env, m, [b]) == DomNext(env, m, b)
  {
    assert b.Block?;
    hide Allowed, DomNext;
    assert [b][1..] == [];
  }

  /** One more block behind a passing stretch that ends in m'. */
  lemma PassOn(env: Env, m: Dom, bs: seq<Block>, m': Dom, b: Block)
    requires NoJump(bs) && Passes(env, m, bs) && DomAfter(env, m, bs) == m' && Allowed(env, m', b)
    ensures Passes(env, m, bs + [b])
    ensures b.dst != Pc ==> NoJump(bs + [b]) && DomAfter(env, m, bs + [b]) == DomNext(env, m', b)
  {
    assert b.Block?;
    hide Allowed, DomNext;
    assert [b][1..] == [];
    PassSplit(env, m, bs, [b]);
  }

  lemma Empty(env: Env, m: Dom)
    ensures NoJump([]) && Passes(env, m, []) && DomAfter(env, m, []) == m
  {
  }

  /** A stretch of blocks that passes from m and ends in m'. */
  ghost predicate Goes(env: Env, m: Dom, bs: seq<Block>, m': Dom) {
    NoJump(bs) && Passes(env, m, bs) && DomAfter(env, m, bs) == m'
  }

  lemma Join(env: Env, m: Dom, bs: seq<Block>, m': Dom, cs: seq<Block>, m'': Dom)
    requires Goes(env, m, bs, m') && Goes(env, m', cs, m'')
    ensures Goes(env, m, bs + cs, m'')
  {
    PassSplit(env, m, bs, cs);
  }

  lemma AliasPair(r: Regs, m: Dom, x: Loc, y: Loc)
    requires r.Ok() && Src(r, m, x) && Src(r, m, y)
    ensures Goes(r.env, m, [Pl(x, Acc), Pl(y, AccXor)], Dom(false, true, m.atOk, m.pend))
    ensures Goes(r.env, m, [Pl(x, Acc), Pl(y, AccSet)], Dom(false, true, m.atOk, m.pend))
    ensures Goes(r.env, m, [Pl(x, Acc), Pl(y, AccClr)], Dom(false, true, m.atOk, m.pend))
  {
    hide Allowed, DomNext, Passes, DomAfter;
    LoadStep(r, m, x); Pass1(r.env, m, Pl(x, Acc));
    var m' := Dom(false, true, m.atOk, m.pend);
    AliasStep(r, m', y);
    PassOn(r.env, m, [Pl(x, Acc)], m', Pl(y, AccXor));
    PassOn(r.env, m, [Pl(x, Acc)], m', Pl(y, AccSet));
    PassOn(r.env, m, [Pl(x, Acc)], m', Pl(y, AccClr));
    assert [Pl(x, Acc)] + [Pl(y, AccXor)] == [Pl(x, Acc), Pl(y, AccXor)];
    assert [Pl(x, Acc)] + [Pl(y, AccSet)] == [Pl(x, Acc), Pl(y, AccSet)];
    assert [Pl(x, Acc)] + [Pl(y, AccClr)] == [Pl(x, Acc), Pl(y, AccClr)];
  }

  lemma GoesSniff(r: Regs, m: Dom, bs: seq<Block>, m': Dom, x: Loc)
    requires r.Ok() && Goes(r.env, m, bs, m') && (Src(r, m', x) || x == Acc) && m'.live
    ensures Goes(r.env, m, bs + [Sn(r, x)], m'.(sniff := true))
  {
    hide Allowed, DomNext, Passes, DomAfter;
    SniffStep(r, m', x);
    PassOn(r.env, m, bs, m', Sn(r, x));
  }

  lemma GoesStore(r: Regs, m: Dom, bs: seq<Block>, m': Dom, d: Loc)
    requires r.Ok() && Goes(r.env, m, bs, m') && Dst(r, d) && m'.live
    ensures Goes(r.env, m, bs + [Pl(Acc, d)], Dom(m'.sniff, !m'.sniff, m'.atOk || d == Mem(r.env.at), m'.pend))
  {
    hide Allowed, DomNext, Passes, DomAfter;
    StoreStep(r, m', d);
    PassOn(r.env, m, bs, m', Pl(Acc, d));
  }

  lemma GoesLoad(r: Regs, m: Dom, bs: seq<Block>, m': Dom, x: Loc)
    requires r.Ok() && Goes(r.env, m, bs, m') && Src(r, m', x)
    ensures Goes(r.env, m, bs + [Pl(x, Acc)], Dom(false, true, m'.atOk, m'.pend))
    ensures Goes(r.env, m, bs + [Bs(x, Acc)], Dom(false, true, m'.atOk, m'.pend))
  {
    hide Allowed, DomNext, Passes, DomAfter;
    LoadStep(r, m', x);
    PassOn(r.env, m, bs, m', Pl(x, Acc));
    PassOn(r.env, m, bs, m', Bs(x, Acc));
  }

  lemma GoesAlias(r: Regs, m: Dom, bs: seq<Block>, m': Dom, x: Loc)
    requires r.Ok() && Goes(r.env, m, bs, m') && Src(r, m', x) && m'.live && !m'.sniff
    ensures Goes(r.env, m, bs + [Pl(x, AccXor)], m') && Goes(r.env, m, bs + [Pl(x, AccSet)], m')
    ensures Goes(r.env, m, bs + [Pl(x, AccClr)], m')
  {
    hide Allowed, DomNext, Passes, DomAfter;
    AliasStep(r, m', x);
    PassOn(r.env, m, bs, m', Pl(x, AccXor));
    PassOn(r.env, m, bs, m', Pl(x, AccSet));
    PassOn(r.env, m, bs, m', Pl(x, AccClr));
  }

  lemma GoesOut(r: Regs, m: Dom, bs: seq<Block>, m': Dom)
    requires r.Ok() && Goes(r.env, m, bs, m') && m'.live
    ensures Passes(r.env, m, bs + [Pl(Acc, Pc)])
  {
    hide Passes, DomAfter;
    PassOn(r.env, m, bs, m', Pl(Acc, Pc));
  }

  // Stretches shared by several macros.

  lemma SubIntoGoes(r: Regs, m: Dom, a: Loc, b: Loc)
    requires r.Ok() && ONES in r.env.lits && Src(r, m, a) && Src(r, m, b)
    ensures Goes(r.env, m, SubInto(r, a, b), Dom(true, true, m.atOk, m.pend))
  {
    hide Goes;
    Fixed(r, m);
    AliasPair(r, m, b, r.Lit(ONES));
    var m' := Dom(false, true, m.atOk, m.pend);
    var bs := [Pl(b, Acc), Pl(r.Lit(ONES), AccXor)];
    GoesSniff(r, m, bs, m', r.Lit(1));
    GoesSniff(r, m, bs + [Sn(r, r.Lit(1))], m'.(sniff := true), a);
    assert SubInto(r, a, b) == bs + [Sn(r, r.Lit(1))] + [Sn(r, a)];
  }

  lemma {:induction false} MulStepsGo(r: Regs, m: Dom, a: Loc, k: nat, i: nat, started: bool) returns (m': Dom)
    requires r.Ok() && Src(r, m, a) && m.live
    ensures Goes(r.env, m, MulSteps(r, a, k, i, started), m') && m'.live && m'.atOk == m.atOk
    decreases i
  {
    hide Goes;
    var bit := Bit(k, i);
    Empty(r.env, m);
    assert Goes(r.env, m, [], m) by { GoesNil(r.env, m); }
    var first := if started then [Sn(r, Acc)] else [];
    m' := m;
    if started { GoesSniff(r, m, [], m, Acc); m' := m.(sniff := true); assert [] + [Sn(r, Acc)] == first; }
    var here := first + (if bit == 1 then [Sn(r, a)] else []);
    if bit == 1 { GoesSniff(r, m, first, m', a); m' := m.(sniff := true); } else { assert here == first; }
    if i > 0 {
      var m1 := m';
      m' := MulStepsGo(r, m1, a, k, i - 1, started || bit == 1);
      Join(r.env, m, here, m1, MulSteps(r, a, k, i - 1, started || bit == 1), m');
    }
  }

  lemma GoesNil(env: Env, m: Dom)
    ensures Goes(env, m, [], m)
  {
  }

  /** The dispatch tail passes from any live accumulator (classic form) or any agreeing at. */
  lemma TailPasses(e: Enc, r: Regs, m: Dom, bs: seq<Block>, m': Dom, pair: Loc)
    requires r.Ok() && 0xFFFFFF7F in r.env.lits && Goes(r.env, m, bs, m') && Src(r, m', pair)
    requires if e == Classic then m'.live && !m'.sniff else m'.atOk
    ensures Passes(r.env, m, bs + SignTail(e, r, pair))
  {
    hide Goes;
    Fixed(r, m');
    var at, mask := Mem(r.env.at), r.Lit(0xFFFFFF7F);
    var head, m1 := bs, m';
    if e == Compact {
      GoesLoad(r, m, bs, m', at);
      head, m1 := bs + [Pl(at, Acc)], Dom(false, true, m'.atOk, m'.pend);
    }
    GoesAlias(r, m, head, m1, mask);
    GoesSniff(r, m, head + [Pl(mask, AccClr)], m1, pair);
    GoesOut(r, m, head + [Pl(mask, AccClr)] + [Sn(r, pair)], m1.(sniff := true));
    assert bs + SignTail(e, r, pair) == head + [Pl(mask, AccClr)] + [Sn(r, pair)] + [Pl(Acc, Pc)];
  }

  // ----- every macro passes -----

  lemma ArithmeticPasses(r: Regs, m: Dom, a: Loc, b: Loc, d: Loc)
    requires r.Ok() && ONES in r.env.lits && Src(r, m, a) && Src(r, m, b) && Dst(r, d)
    ensures Passes(r.env, m, AddM(r, a, b, d)) && Passes(r.env, m, SubM(r, a, b, d))
    ensures Passes(r.env, m, AndM(r, a, b, d))
    ensures Passes(r.env, m, OrM(a, b, d)) && Passes(r.env, m, XorM(a, b, d)) && Passes(r.env, m, AndNotM(a, b, d))
  {
    var at, m' := Mem(r.env.at), Dom(false, true, m.atOk, m.pend);
    Fixed(r, m);
    assert Goes(r.env, m, [], m);
    assert forall bs, m'' :: Goes(r.env, m, bs, m'') ==> Passes(r.env, m, bs);
    hide Goes, Passes, SubInto;
    GoesLoad(r, m, [], m, a);
    assert [] + [Pl(a, Acc)] == [Pl(a, Acc)];
    GoesSniff(r, m, [Pl(a, Acc)], m', b);
    GoesStore(r, m, [Pl(a, Acc)] + [Sn(r, b)], m'.(sniff := true), d);
    assert AddM(r, a, b, d) == [Pl(a, Acc)] + [Sn(r, b)] + [Pl(Acc, d)];
    SubIntoGoes(r, m, a, b);
    GoesStore(r, m, SubInto(r, a, b), Dom(true, true, m.atOk, m.pend), d);
    AliasPair(r, m, b, a); AliasPair(r, m, a, b);
    GoesStore(r, m, [Pl(b, Acc), Pl(a, AccSet)], m', d);
    assert OrM(a, b, d) == [Pl(b, Acc), Pl(a, AccSet)] + [Pl(Acc, d)];
    GoesStore(r, m, [Pl(b, Acc), Pl(a, AccXor)], m', d);
    assert XorM(a, b, d) == [Pl(b, Acc), Pl(a, AccXor)] + [Pl(Acc, d)];
    GoesStore(r, m, [Pl(a, Acc), Pl(b, AccClr)], m', d);
    assert AndNotM(a, b, d) == [Pl(a, Acc), Pl(b, AccClr)] + [Pl(Acc, d)];
    AndPasses(r, m, a, b, d);
  }

  lemma AndPasses(r: Regs, m: Dom, a: Loc, b: Loc, d: Loc)
    requires r.Ok() && ONES in r.env.lits && Src(r, m, a) && Src(r, m, b) && Dst(r, d)
    ensures Passes(r.env, m, AndM(r, a, b, d))
  {
    var at, ones := Mem(r.env.at), r.Lit(ONES);
    Fixed(r, m);
    AliasPair(r, m, a, ones);
    var first := [Pl(a, Acc), Pl(ones, AccXor)];
    GoesStore(r, m, first, Dom(false, true, m.atOk, m.pend), at);
    var m' := Dom(false, true, true, m.pend);
    AliasPair(r, m', b, at);
    Join(r.env, m, first + [Pl(Acc, at)], m', [Pl(b, Acc), Pl(at, AccClr)], m');
    var bs := first + [Pl(Acc, at)] + [Pl(b, Acc), Pl(at, AccClr)];
    GoesStore(r, m, bs, m', d);
    assert AndM(r, a, b, d) == bs + [Pl(Acc, d)];
  }

  lemma MulcPasses(r: Regs, m: Dom, a: Loc, k: Word, d: Loc)
    requires r.Ok() && Src(r, m, a) && Dst(r, d)
    ensures Passes(r.env, m, MulcM(Compact, r, a, k, d))
  {
    Fixed(r, m);
    var z := Mem(r.zero);
    GoesNil(r.env, m);
    GoesLoad(r, m, [], m, z);
    assert [] + [Pl(z, Acc)] == [Pl(z, Acc)];
    var m1 := Dom(false, true, m.atOk, m.pend);
    var m2 := MulStepsGo(r, m1, a, k, 31, false);
    Join(r.env, m, [Pl(z, Acc)], m1, MulSteps(r, a, k, 31, false), m2);
    GoesStore(r, m, [Pl(z, Acc)] + MulSteps(r, a, k, 31, false), m2, d);
  }

  lemma TestsPass(r: Regs, m: Dom, v: Loc, p: Loc)
    requires r.Ok() && PoolHas(Compact, r) && Src(r, m, v) && Src(r, m, p)
    ensures Passes(r.env, m, JsignM(r, v, p)) && Passes(r.env, m, JnegM(Compact, r, v, p))
  {
    hide Goes, Passes;
    Fixed(r, m);
    GoesNil(r.env, m);
    GoesLoad(r, m, [], m, v);
    assert [] + [Bs(v, Acc)] == [Bs(v, Acc)];
    var m1, mask := Dom(false, true, m.atOk, m.pend), r.Lit(JnegMask(Compact));
    TailPasses(Classic, r, m, [Bs(v, Acc)], m1, p);
    GoesAlias(r, m, [Bs(v, Acc)], m1, mask);
    GoesSniff(r, m, [Bs(v, Acc)] + [Pl(mask, AccClr)], m1, p);
    GoesOut(r, m, [Bs(v, Acc)] + [Pl(mask, AccClr)] + [Sn(r, p)], m1.(sniff := true));
    assert JnegM(Compact, r, v, p) == [Bs(v, Acc)] + [Pl(mask, AccClr)] + [Sn(r, p)] + [Pl(Acc, Pc)];
  }

  lemma JboolPasses(r: Regs, m: Dom, v: Loc, p: Loc)
    requires r.Ok() && Src(r, m, v) && Src(r, m, p)
    ensures Passes(r.env, m, JboolM(Compact, r, v, p))
  {
    hide Goes, Passes;
    var z, m1 := Mem(r.zero), Dom(true, true, m.atOk, m.pend);
    Fixed(r, m);
    GoesNil(r.env, m);
    GoesLoad(r, m, [], m, z);
    GoesSniff(r, m, [] + [Pl(z, Acc)], Dom(false, true, m.atOk, m.pend), v);
    var b1 := [Pl(z, Acc), Sn(r, v)];
    assert [] + [Pl(z, Acc)] + [Sn(r, v)] == b1;
    GoesSniff(r, m, b1, m1, Acc);
    GoesSniff(r, m, b1 + [Sn(r, Acc)], m1, Acc);
    var b2 := b1 + [Sn(r, Acc)] + [Sn(r, Acc)];
    GoesSniff(r, m, b2, m1, Acc);
    GoesSniff(r, m, b2 + [Sn(r, Acc)], m1, p);
    GoesOut(r, m, b2 + [Sn(r, Acc)] + [Sn(r, p)], m1);
    assert JboolM(Compact, r, v, p) == b2 + [Sn(r, Acc)] + [Sn(r, p)] + [Pl(Acc, Pc)];
  }

  /** The compact comparison tail: swap the live accumulator out to at, then dispatch. */
  lemma SwapTailPasses(r: Regs, m: Dom, bs: seq<Block>, m': Dom, pair: Loc)
    requires r.Ok() && 0xFFFFFF7F in r.env.lits && Goes(r.env, m, bs, m') && m'.live && !m'.sniff && Src(r, m', pair)
    ensures Passes(r.env, m, bs + Swapped(Compact, r) + SignTail(Compact, r, pair))
  {
    hide Passes, DomAfter, Allowed, DomNext;
    SwapOutStep(r, m');
    PassOn(r.env, m, bs, m', Bs(Acc, Mem(r.env.at)));
    TailPasses(Compact, r, m, bs + Swapped(Compact, r), m'.(atOk := true), pair);
  }

  lemma JeqPasses(r: Regs, m: Dom, a: Loc, b: Loc, pair: Loc)
    requires r.Ok() && PoolHas(Compact, r) && Src(r, m, a) && Src(r, m, b) && Src(r, m, pair)
    ensures Passes(r.env, m, JeqM(Compact, r, a, b, pair))
  {
    hide Goes, Passes, SubInto;
    var at, at2, one, ones := Mem(r.env.at), Mem(r.at2), r.Lit(1), r.Lit(ONES);
    Fixed(r, m);
    SubIntoGoes(r, m, a, b);
    GoesStore(r, m, SubInto(r, a, b), Dom(true, true, m.atOk, m.pend), at);
    var b1, m1 := SubInto(r, a, b) + [Pl(Acc, at)], Dom(true, false, true, m.pend);
    AliasPair(r, m1, at, ones);
    var m2 := Dom(false, true, true, m.pend);
    Join(r.env, m, b1, m1, [Pl(at, Acc), Pl(ones, AccXor)], m2);
    var b2 := b1 + [Pl(at, Acc), Pl(ones, AccXor)];
    GoesSniff(r, m, b2, m2, one);
    GoesStore(r, m, b2 + [Sn(r, one)], m2.(sniff := true), at2);
    var b3, m3 := b2 + [Sn(r, one)] + [Pl(Acc, at2)], Dom(true, false, true, m.pend);
    AliasPair(r, m3, at2, at);
    Join(r.env, m, b3, m3, [Pl(at2, Acc), Pl(at, AccSet)], m2);
    SwapTailPasses(r, m, b3 + [Pl(at2, Acc), Pl(at, AccSet)], m2, pair);
    assert JeqM(Compact, r, a, b, pair) ==
           b3 + [Pl(at2, Acc), Pl(at, AccSet)] + Swapped(Compact, r) + SignTail(Compact, r, pair);
  }

  lemma OrderedPasses(r: Regs, m: Dom, a: Loc, b: Loc, mask: seq<Block>, term: seq<Block>, pair: Loc)
    requires r.Ok() && PoolHas(Compact, r) && Src(r, m, a) && Src(r, m, b) && Src(r, m, pair)
    requires Goes(r.env, m, mask, Dom(false, true, m.atOk, m.pend))
    requires Goes(r.env, Dom(false, true, true, m.pend), term, Dom(false, true, true, m.pend))
    ensures Passes(r.env, m, Ordered(Compact, r, a, b, mask, term, pair))
  {
    hide Goes, Passes, SubInto;
    var at, at2, full := Mem(r.env.at), Mem(r.at2), Dom(false, true, true, m.pend);
    Fixed(r, m);
    GoesStore(r, m, mask, Dom(false, true, m.atOk, m.pend), at);
    SubIntoGoes(r, full, a, b);
    var b1 := mask + [Pl(Acc, at)] + SubInto(r, a, b);
    Join(r.env, m, mask + [Pl(Acc, at)], full, SubInto(r, a, b), Dom(true, true, true, m.pend));
    GoesStore(r, m, b1, Dom(true, true, true, m.pend), at2);
    GoesLoad(r, m, b1 + [Pl(Acc, at2)], Dom(true, false, true, m.pend), at2);
    var b2 := b1 + [Pl(Acc, at2)] + [Pl(at2, Acc)];
    GoesAlias(r, m, b2, full, at);
    GoesStore(r, m, b2 + [Pl(at, AccClr)], full, at2);
    var b3 := b2 + [Pl(at, AccClr)] + [Pl(Acc, at2)];
    Join(r.env, m, b3, full, term, full);
    GoesAlias(r, m, b3 + term, full, at2);
    SwapTailPasses(r, m, b3 + term + [Pl(at2, AccSet)], full, pair);
    assert Ordered(Compact, r, a, b, mask, term, pair) ==
           b3 + term + [Pl(at2, AccSet)] + Swapped(Compact, r) + SignTail(Compact, r, pair);
  }

  /** Slots are jumps through the pool. */
  lemma SlotsMOk(r: Regs, x: Word, y: Word)
    requires r.Ok() && x in r.env.lits && y in r.env.lits
    ensures Slotted(SlotsM(r, x, y))
  {
  }

  /** jneg and jbool with their slots. */
  lemma SlottedPass(r: Regs, m: Dom, v: Loc, p: Loc, x: Word, y: Word)
    requires r.Ok() && PoolHas(Compact, r) && Src(r, m, v) && Src(r, m, p) && x in r.env.lits && y in r.env.lits
    ensures Passes(r.env, m, JnegM(Compact, r, v, p) + SlotsM(r, x, y))
    ensures Passes(r.env, m, JboolM(Compact, r, v, p) + SlotsM(r, x, y))
  {
    TestsPass(r, m, v, p);
    JboolPasses(r, m, v, p);
    SlotsMOk(r, x, y);
    var jn, jb := JnegM(Compact, r, v, p), JboolM(Compact, r, v, p);
    assert jn == jn[..|jn| - 1] + [Pl(Acc, Pc)] && jb == jb[..|jb| - 1] + [Pl(Acc, Pc)];
    assert NoJump(jn[..|jn| - 1]) && NoJump(jb[..|jb| - 1]);
    hide Passes, JnegM, JboolM, Slotted, SlotsM;
    PassSlots(r.env, m, jn[..|jn| - 1], Pl(Acc, Pc), SlotsM(r, x, y));
    PassSlots(r.env, m, jb[..|jb| - 1], Pl(Acc, Pc), SlotsM(r, x, y));
  }

  /** A plain copy, and a jump through a cell or the live accumulator. */
  lemma CopyStep(r: Regs, m: Dom, x: Loc, d: Loc)
    requires r.Ok() && !m.sniff && (Src(r, m, x) || (x == Acc && m.live))
    ensures Dst(r, d) ==>
              Allowed(r.env, m, Pl(x, d)) && DomNext(r.env, m, Pl(x, d)) == m.(atOk := m.atOk || d == Mem(r.env.at))
    ensures Allowed(r.env, m, Pl(x, Pc))
  {
  }

  lemma JumpPasses(r: Regs, m: Dom, x: Loc)
    requires r.Ok() && !m.sniff && (Src(r, m, x) || (x == Acc && m.live))
    ensures Passes(r.env, m, [Pl(x, Pc)])
  {
    CopyStep(r, m, x, Pc);
    hide Allowed;
    assert [Pl(x, Pc)][1..] == [];
  }

  /** A copy and then a jump, each through a cell. */
  lemma CopyJumpPasses(r: Regs, m: Dom, x: Loc, d: Loc, y: Loc)
    requires r.Ok() && !m.sniff && Src(r, m, x) && Src(r, m, y) && Dst(r, d)
    ensures Passes(r.env, m, [Pl(x, d), Pl(y, Pc)]) && Passes(r.env, m, [Pl(x, d)])
  {
    CopyStep(r, m, x, d);
    var m' := m.(atOk := m.atOk || d == Mem(r.env.at));
    JumpPasses(r, m', y);
    hide Allowed, DomNext;
    assert [Pl(x, d), Pl(y, Pc)][1..] == [Pl(y, Pc)] && [Pl(x, d)][1..] == [];
  }

  /** Every macro's compact expansion passes, whatever its operands and constants. */
  lemma MacroPasses(r: Regs, d: Dom, m: Macro)
    requires r.Ok() && PoolHas(Compact, r) && Named(r, m) && Operands(r, d, m) && !d.sniff
    requires !m.MoveTo? && !m.Nop? && !m.Halt?
    ensures Passes(r.env, d, Expand(Compact, r, m))
  {
    Fixed(r, d);
    hide Passes, Goes, Ordered, JeqM, MulcM, JboolM, JsignM, JnegM, AddM, SubM, AndM, OrM, XorM, AndNotM, SlotsM;
    var full := Dom(false, true, true, d.pend);
    match m
    case Add(x, y, z) => ArithmeticPasses(r, d, x, y, z);
    case Sub(x, y, z) => ArithmeticPasses(r, d, x, y, z);
    case Or(x, y, z) => ArithmeticPasses(r, d, x, y, z);
    case Xor(x, y, z) => ArithmeticPasses(r, d, x, y, z);
    case AndNot(x, y, z) => ArithmeticPasses(r, d, x, y, z);
    case And(x, y, z) => ArithmeticPasses(r, d, x, y, z);
    case Shl(x, z) => ArithmeticPasses(r, d, x, x, z); ShlIsAdd(r, x, z);
    case Mulc(x, k, z) => MulcPasses(r, d, x, k, z);
    case Jsign(x, p) => TestsPass(r, d, x, p);
    case Jneg(x, p, u, v) => SlottedPass(r, d, x, p, u, v);
    case Jbool(x, p, u, v) => SlottedPass(r, d, x, p, u, v);
    case Jeq(x, y, p) => JeqPasses(r, d, x, y, p);
    case Jlt(x, y, p) =>
      AliasPair(r, d, x, y); AliasPair(r, full, x, y);
      OrderedPasses(r, d, x, y, [Pl(x, Acc), Pl(y, AccXor)], [Pl(x, Acc), Pl(y, AccClr)], p);
    case Jltu(x, y, p) =>
      AliasPair(r, d, x, y); AliasPair(r, full, y, x);
      OrderedPasses(r, d, x, y, [Pl(x, Acc), Pl(y, AccClr)], [Pl(y, Acc), Pl(x, AccClr)], p);
    case JumpTo(x) => JumpPasses(r, d, r.Lit(x));
    case Jumpr(x) => JumpPasses(r, d, x);
    case Call(x, y, lr) => CopyJumpPasses(r, d, r.Lit(y), lr, r.Lit(x));
    case Ret(lr) => JumpPasses(r, d, lr);
    case Safepoint(x, irq, to) => CopyJumpPasses(r, d, r.Lit(x), irq, to);
    case Gpio(x, reg) => CopyJumpPasses(r, d, r.Lit(x), reg, r.Lit(x));
  }

  lemma ShlIsAdd(r: Regs, a: Loc, d: Loc)
    ensures ShlM(r, a, d) == AddM(r, a, a, d)
  {
  }

  // ----- moves -----

  /** A macro that may run here: operands for the arithmetic and jumps, the move rules for a move. */
  ghost predicate MacroOk(r: Regs, f: Flags, c: State, m: Macro) {
    && Named(r, m) && Operands(r, DomOf(f), m)
    && (m.MoveTo? ==> MoveBlock(m.src, m.dst, m.fl).Ok() && MoveOk(r, f, c, MoveBlock(m.src, m.dst, m.fl)))
  }

  function DomOf(f: Flags): Dom {
    Dom(false, f.live, f.atOk, Pend(SIZE8W in f.pend, SIZE8RW in f.pend))
  }

  lemma DomOfFlags(f: Flags)
    requires f.pend <= {SIZE8W, SIZE8RW}
    ensures DomOf(f).Flags() == f && DomOf(f).Planner() == CANON
  {
    assert DomOf(f).pend.Banks() == f.pend;
  }

  /** A move that obeys the move rules obeys the mode-domain rules from canonical state. */
  lemma MoveObeys(r: Regs, f: Flags, c: State, blk: Block)
    requires r.Ok() && blk.Block? && blk.Ok() && MoveOk(r, f, c, blk)
    ensures LitsFor(r.env, [blk]) && Obeys(r.env, CANON, f, c, [blk])
  {
    hide WalkOk, SrcOk, DstOk;
    assert BlockOk(r.env, CANON, f, c, blk);
    assert [blk][1..] == [];
  }

  lemma NopObeys(r: Regs, f: Flags, c: State)
    requires r.Ok() && f.pend <= {SIZE8W, SIZE8RW}
    ensures var b := Block(Mem(r.zero), Mem(r.env.nul), 0, PLAIN, false);
            AllOk([b]) && LitsFor(r.env, [b]) && Obeys(r.env, CANON, f, c, [b])
  {
    var b := Block(Mem(r.zero), Mem(r.env.nul), 0, PLAIN, false);
    Fixed(r, DomOf(f));
    assert BlockOk(r.env, CANON, f, c, b);
    assert [b][1..] == [];
  }

  /** Every macro's compact form obeys the mode-domain rules along every run. */
  lemma MacroObeys(r: Regs, f: Flags, c: State, m: Macro)
    requires r.Ok() && PoolHas(Compact, r) && MacroOk(r, f, c, m) && f.pend <= {SIZE8W, SIZE8RW}
    ensures var bs := Expand(Compact, r, m);
            AllOk(bs) && LitsFor(r.env, bs) && Obeys(r.env, CANON, f, c, bs)
  {
    hide Passes, Obeys, MoveOk;
    DomOfFlags(f);
    match m
    case MoveTo(src, dst, fl) => MoveObeys(r, f, c, MoveBlock(src, dst, fl));
    case Nop => NopObeys(r, f, c);
    case Halt => HaltObeys(r, f, c);
    case _ =>
      hide Expand;
      MacroPasses(r, DomOf(f), m);
      PassObeys(r.env, DomOf(f), c, Expand(Compact, r, m));
  }

  lemma HaltObeys(r: Regs, f: Flags, c: State)
    requires r.Ok()
    ensures AllOk([HaltBlock]) && LitsFor(r.env, [HaltBlock]) && Obeys(r.env, CANON, f, c, [HaltBlock])
  {
  }

  /** Compact preserves every macro: planned from canonical state and synced behind, its
      records leave the bank machine as its blocks leave the classic one. */
  lemma MacroRefines(r: Regs, f: Flags, m: Macro, c: State, b: State)
    requires r.Ok() && PoolHas(Compact, r) && MacroOk(r, f, c, m) && Rel(r.env, CANON, f, c, b)
    ensures AllOk(Expand(Compact, r, m)) && LitsFor(r.env, Expand(Compact, r, m))
    ensures var bs := Expand(Compact, r, m);
            SameExit(r.env, CANON, InstrFlags(r.env, f, c, bs), RunBlocks(c, bs),
                RunRecords(b, InstrRecords(r.env, bs)))
  {
    assert f.pend <= {SIZE8W, SIZE8RW};
    hide Passes, Expand, Obeys, SameExit, Rel, RunBlocks, RunRecords, InstrRecords, InstrFlags, MacroOk;
    MacroObeys(r, f, c, m);
    InstrRefines(r.env, f, c, b, Expand(Compact, r, m));
  }
}
