/** Comparison sites (host/dmacc/compare.go): the millicode helpers, the three forms of a site and
    the choice of helper all reach the label the icmp predicate selects. */
module Compare {
  import opened Words
  import opened Bits
  import opened Core
  import opened Planner
  import opened Compact
  import opened Macros
  import opened Meaning
  import opened Dispatch
  import Asm
  import DivConst

  // ----- the helpers' arithmetic -----

  datatype Helper = Eqz | Eq | Lt | Ltu | Eqzp | Ltp

  /** The word whose sign a helper tests. */
  function Tested(h: Helper, x: Word, y: Word): Word {
    match h
    case Eqz => OrW(x, Sub(0, x))
    case Eq => OrW(Sub(0, Sub(x, y)), Sub(x, y))
    case Lt => OrW(AndNotW(Sub(x, y), XorW(y, x)), AndNotW(x, y))
    case Ltu => OrW(AndNotW(Sub(x, y), AndNotW(x, y)), AndNotW(y, x))
    case Eqzp => Add(x, ONES)
    case Ltp => Sub(x, y)
  }

  /** What the helper decides. */
  predicate Holds(h: Helper, x: Word, y: Word) {
    match h
    case Eqz => x == 0
    case Eq => x == y
    case Lt => Signed(x) < Signed(y)
    case Ltu => x < y
    case Eqzp => x == 0
    case Ltp => x < y
  }

  /** The equality helpers answer yes on a clear sign, the others on a set one. */
  predicate YesOnSet(h: Helper) {
    h != Eqz && h != Eq
  }

  /** The range in which a helper is right; the restricted ones need a proof of it. */
  predicate InRange(h: Helper, x: Word, y: Word) {
    match h
    case Eqzp => x <= M31
    case Ltp => -M31 <= x - y < M31
    case _ => true
  }

  lemma OrSign(u: Word, v: Word)
    ensures Neg(OrW(u, v)) <==> Neg(OrW(v, u))
  {
    SignOps(u, v); SignOps(v, u);
  }

  /** A helper's sign answers its question exactly in its range: for every operand in the case of
      the general helpers, and for the restricted ones wherever the difference cannot wrap. */
  lemma HelperExact(h: Helper, x: Word, y: Word)
    ensures ((Neg(Tested(h, x, y)) <==> YesOnSet(h)) <==> Holds(h, x, y)) <==> InRange(h, x, y)
  {
    match h
    case Eqz => NonzeroSign(x); hide OrW;
    case Eq => NonzeroSign(Sub(x, y)); hide OrW;
    case Lt =>
      LessSign(x, y); XorFlip(x, y);
      OrSign(AndNotW(Sub(x, y), XorW(y, x)), AndNotW(x, y));
      hide OrW, AndNotW, XorW;
    case Ltu =>
      BelowSign(x, y);
      OrSign(AndNotW(Sub(x, y), AndNotW(x, y)), AndNotW(y, x));
      hide OrW, AndNotW;
    case Eqzp =>
    case Ltp =>
  }

  lemma XorFlip(x: Word, y: Word)
    ensures XorW(x, y) == XorW(y, x)
  {
    Pow2At32(); OpsBound(x, y, 32); OpsBound(y, x, 32);
    forall i: nat ensures Bit(XorW(x, y), i) == Bit(XorW(y, x), i) {
      XorBit(x, y, i); XorBit(y, x, i);
    }
    BitsEqual(XorW(x, y), XorW(y, x), 32);
  }

  // ----- the helpers' code -----

  /** The shared operand, target and descriptor words; pb, t, f and pa are contiguous. */
  datatype Cw = Cw(a: int, b: int, d: int, pb: int) {
    function T(): int { pb + 4 }
    function F(): int { pb + 8 }
    function Pa(): int { pb + 12 }
    function Cells(): set<int> { {a / 4, b / 4, d / 4, pb / 4, pb / 4 + 1, pb / 4 + 2, pb / 4 + 3} }
  }

  ghost predicate CwOk(r: Regs, c: Cw) {
    && r.Ok() && c.a % 4 == 0 && c.b % 4 == 0 && c.d % 4 == 0 && c.pb % 4 == 0
    && c.a != c.b && c.a != c.d && c.b != c.d
    && c.a / 4 !in {c.pb / 4, c.pb / 4 + 1, c.pb / 4 + 2, c.pb / 4 + 3}
    && c.b / 4 !in {c.pb / 4, c.pb / 4 + 1, c.pb / 4 + 2, c.pb / 4 + 3}
    && c.d / 4 !in {c.pb / 4, c.pb / 4 + 1, c.pb / 4 + 2, c.pb / 4 + 3}
    && c.Cells() !! Scratch(r) && r.zero / 4 !in c.Cells() && forall i :: i in c.Cells() ==> !r.env.Pool(i)
  }

  ghost predicate PoolHas(r: Regs) {
    ONES in r.env.lits && 0xFFFFFF7F in r.env.lits
  }

  function HelperCode(h: Helper, r: Regs, c: Cw, pair: Loc): seq<Block>
    requires ONES in r.env.lits && 1 in r.env.lits && 0xFFFFFF7F in r.env.lits
  {
    var x, y, at, at2 := Mem(c.a), Mem(c.b), Mem(r.env.at), Mem(r.at2);
    (match h
     case Eqz => SubM(r, Mem(r.zero), x, at) + OrM(at, x, at)
     case Eq => SubM(r, x, y, at) + SubM(r, Mem(r.zero), at, at2) + OrM(at, at2, at)
     case Lt => XorM(x, y, at) + SubM(r, x, y, at2) + AndNotM(at2, at, at2) + AndNotM(x, y, at) + OrM(at, at2, at)
     case Ltu => AndNotM(x, y, at) + SubM(r, x, y, at2) + AndNotM(at2, at, at2) + AndNotM(y, x, at) + OrM(at, at2, at)
     case Eqzp => AddM(r, x, r.Lit(ONES), at)
     case Ltp => SubM(r, x, y, at)) + JsignM(r, at, pair)
  }

  /** One arithmetic macro into at or at2. */
  datatype Arith = AAdd | ASub | AOr | AXor | AAndn

  function ArithCode(r: Regs, op: Arith, x: Loc, y: Loc, d: Loc): seq<Block>
    requires ONES in r.env.lits && 1 in r.env.lits
  {
    match op
    case AAdd => AddM(r, x, y, d)
    case ASub => SubM(r, x, y, d)
    case AOr => OrM(x, y, d)
    case AXor => XorM(x, y, d)
    case AAndn => AndNotM(x, y, d)
  }

  function ArithValue(op: Arith, x: Word, y: Word): Word {
    match op
    case AAdd => Add(x, y)
    case ASub => Sub(x, y)
    case AOr => OrW(y, x)
    case AXor => XorW(y, x)
    case AAndn => AndNotW(x, y)
  }

  predicate Temp(r: Regs, d: Loc) {
    d == Mem(r.env.at) || d == Mem(r.at2)
  }

  /** Code that falls through from s to t with v in d, touching only the null cell and d. */
  ghost predicate Yields(r: Regs, s: State, code: seq<Block>, t: State, d: Loc, v: Word)
    requires Temp(r, d)
  {
    && AllOk(code) && RunBlocks(s, code) == Fall(t) && Loaded(r, t) && Val(t, d) == v
    && Same(s, t, {r.env.nul / 4, d.addr / 4})
  }

  lemma ArithMeans(s: State, r: Regs, op: Arith, x: Loc, y: Loc, d: Loc) returns (t: State)
    requires Loaded(r, s) && ONES in r.env.lits && Opnd(r, x) && Opnd(r, y) && Temp(r, d)
    ensures Yields(r, s, ArithCode(r, op, x, y, d), t, d, ArithValue(op, Val(s, x), Val(s, y)))
  {
    hide RunBlocks, OrW, XorW, AndNotW;
    var v := ArithValue(op, Val(s, x), Val(s, y));
    match op {
      case AAdd => AddMeans(s, r, x, y, d); t := Put(Put(s, Mem(r.env.nul), Val(s, y)), d, v).(acc := v);
      case ASub => SubMeans(s, r, x, y, d); t := Put(Put(s, Mem(r.env.nul), Val(s, x)), d, v).(acc := v);
      case AOr => BitwiseMeans(s, x, y, d); t := Put(s, d, v).(acc := v);
      case AXor => BitwiseMeans(s, x, y, d); t := Put(s, d, v).(acc := v);
      case AAndn => BitwiseMeans(s, x, y, d); t := Put(s, d, v).(acc := v);
    }
    StillLoaded(r, s, t);
  }

  /** Another macro behind a stretch that has fallen through. */
  lemma Chain(s: State, r: Regs, code: seq<Block>, t: State, op: Arith, x: Loc, y: Loc, d: Loc) returns (u: State)
    requires AllOk(code) && RunBlocks(s, code) == Fall(t) && Loaded(r, t) && Same(s, t, Scratch(r))
    requires ONES in r.env.lits && Opnd(r, x) && Opnd(r, y) && Temp(r, d)
    ensures AllOk(code + ArithCode(r, op, x, y, d)) && RunBlocks(s, code + ArithCode(r, op, x, y, d)) == Fall(u)
    ensures Loaded(r, u) && Same(s, u, Scratch(r)) && Val(u, d) == ArithValue(op, Val(t, x), Val(t, y))
    ensures forall l :: Cell(l) && l != d && l.addr != r.env.nul ==> Val(u, l) == Val(t, l)
  {
    hide RunBlocks, ArithCode, ArithValue;
    u := ArithMeans(t, r, op, x, y, d);
    RunSplit(s, code, ArithCode(r, op, x, y, d));
  }

  lemma First(s: State, r: Regs, op: Arith, x: Loc, y: Loc, d: Loc) returns (u: State)
    requires Loaded(r, s) && ONES in r.env.lits && Opnd(r, x) && Opnd(r, y) && Temp(r, d)
    ensures AllOk(ArithCode(r, op, x, y, d)) && RunBlocks(s, ArithCode(r, op, x, y, d)) == Fall(u)
    ensures Loaded(r, u) && Same(s, u, Scratch(r)) && Val(u, d) == ArithValue(op, Val(s, x), Val(s, y))
    ensures forall l :: Cell(l) && l != d && l.addr != r.env.nul ==> Val(u, l) == Val(s, l)
  {
    hide RunBlocks, ArithCode, ArithValue;
    u := ArithMeans(s, r, op, x, y, d);
  }

  /** The arithmetic of a helper leaves the tested word in at. */
  lemma BodyMeans(h: Helper, s: State, r: Regs, c: Cw) returns (code: seq<Block>, u: State)
    requires Loaded(r, s) && PoolHas(r) && CwOk(r, c)
    ensures forall pair :: HelperCode(h, r, c, pair) == code + JsignM(r, Mem(r.env.at), pair)
    ensures AllOk(code) && RunBlocks(s, code) == Fall(u) && Loaded(r, u) && Same(s, u, Scratch(r))
    ensures Val(u, Mem(r.env.at)) == Tested(h, Val(s, Mem(c.a)), Val(s, Mem(c.b)))
  {
    hide RunBlocks, OrW, XorW, AndNotW, Sub, Add, JsignM, SubM, OrM, XorM, AndNotM, AddM;
    var x, y, at, at2, z := Mem(c.a), Mem(c.b), Mem(r.env.at), Mem(r.at2), Mem(r.zero);
    CwFree(r, c);
    match h {
      case Eqz =>
        var u1 := First(s, r, ASub, z, x, at);
        u := Chain(s, r, ArithCode(r, ASub, z, x, at), u1, AOr, at, x, at);
        code := SubM(r, z, x, at) + OrM(at, x, at);
      case Eq =>
        var u1 := First(s, r, ASub, x, y, at);
        var u2 := Chain(s, r, SubM(r, x, y, at), u1, ASub, z, at, at2);
        u := Chain(s, r, SubM(r, x, y, at) + SubM(r, z, at, at2), u2, AOr, at, at2, at);
        code := SubM(r, x, y, at) + SubM(r, z, at, at2) + OrM(at, at2, at);
      case Lt =>
        code, u := OrderBody(s, r, c, AXor, x, y, x, y);
      case Ltu =>
        code, u := OrderBody(s, r, c, AAndn, x, y, y, x);
      case Eqzp =>
        u := First(s, r, AAdd, x, r.Lit(ONES), at);
        code := AddM(r, x, r.Lit(ONES), at);
      case Ltp =>
        u := First(s, r, ASub, x, y, at);
        code := SubM(r, x, y, at);
    }
  }

  /** The common body of lt and ltu: mask, difference, masked difference, term, merge. */
  lemma OrderBody(s: State, r: Regs, c: Cw, mask: Arith, x: Loc, y: Loc, p: Loc, q: Loc)
    returns (code: seq<Block>, u: State)
    requires Loaded(r, s) && PoolHas(r) && Free(r, x) && Free(r, y) && Free(r, p) && Free(r, q)
    ensures var at, at2 := Mem(r.env.at), Mem(r.at2);
            code == ArithCode(r, mask, x, y, at) + SubM(r, x, y, at2) + AndNotM(at2, at, at2) + AndNotM(p, q, at)
                + OrM(at, at2, at)
    ensures AllOk(code) && RunBlocks(s, code) == Fall(u) && Loaded(r, u) && Same(s, u, Scratch(r))
    ensures Val(u, Mem(r.env.at)) ==
            OrW(AndNotW(Sub(Val(s, x), Val(s, y)), ArithValue(mask, Val(s, x), Val(s, y))),
                AndNotW(Val(s, p), Val(s, q)))
  {
    hide RunBlocks, OrW, XorW, AndNotW, Sub, Add, SubM, OrM, XorM, AndNotM, AddM;
    var at, at2 := Mem(r.env.at), Mem(r.at2);
    var c1 := ArithCode(r, mask, x, y, at);
    var u1 := First(s, r, mask, x, y, at);
    var u2 := Chain(s, r, c1, u1, ASub, x, y, at2);
    var c2 := c1 + ArithCode(r, ASub, x, y, at2);
    var u3 := Chain(s, r, c2, u2, AAndn, at2, at, at2);
    var c3 := c2 + ArithCode(r, AAndn, at2, at, at2);
    var u4 := Chain(s, r, c3, u3, AAndn, p, q, at);
    var c4 := c3 + ArithCode(r, AAndn, p, q, at);
    u := Chain(s, r, c4, u4, AOr, at, at2, at);
    code := c4 + ArithCode(r, AOr, at, at2, at);
  }

  lemma CwFree(r: Regs, c: Cw)
    requires CwOk(r, c)
    ensures forall a :: a in {c.a, c.b, c.d, c.pb, c.T(), c.F(), c.Pa()} ==> Free(r, Mem(a))
  {
    assert forall a :: a in {c.a, c.b, c.d, c.pb, c.T(), c.F(), c.Pa()} ==> a % 4 == 0 && a / 4 in c.Cells();
    assert r.env.nul / 4 in Scratch(r) && r.env.at / 4 in Scratch(r) && r.at2 / 4 in Scratch(r);
  }

  /** A helper jumps to its pair's slot for the sign of the tested word. */
  lemma HelperMeans(h: Helper, s: State, r: Regs, c: Cw, pair: Loc)
    requires Loaded(r, s) && PoolHas(r) && CwOk(r, c) && Free(r, pair)
    ensures AllOk(HelperCode(h, r, c, pair)) && RunBlocks(s, HelperCode(h, r, c, pair)).Jump?
    ensures var t := RunBlocks(s, HelperCode(h, r, c, pair)).s;
            t.pc == Add(if Neg(Tested(h, Val(s, Mem(c.a)), Val(s, Mem(c.b)))) then 128 else 0, Val(s, pair))
                && Same(s, t, Scratch(r))
  {
    hide RunBlocks, Tested, HelperCode, Add, Neg;
    var code, u := BodyMeans(h, s, r, c);
    StillLoaded(r, s, u);
    JsignMeans(u, r, Mem(r.env.at), pair);
    RunSplit(s, code, JsignM(r, Mem(r.env.at), pair));
    assert HelperCode(h, r, c, pair) == code + JsignM(r, Mem(r.env.at), pair);
  }

  // ----- following the code -----

  /** Code in memory: a block, or a block whose READ_ADDR word, at address field, other code
      patches; it moves k fields from wherever that word then points. */
  datatype Code = Fix(b: Block) | Via(field: int, dst: Loc, m: Mode, k: nat)

  predicate CodeOk(code: seq<Code>) {
    forall i :: 0 <= i < |code| ==>
      match code[i]
      case Fix(b) => b.Ok()
      case Via(f, d, m, k) => f % 4 == 0 && m.Ok() && Aligned(d, m.size) && d != Pc
  }

  /** Runs code until it leaves; a patched block reads its source address from memory when it is
      fetched, and faults when the address is misaligned. */
  function RunCode(s: State, code: seq<Code>): Outcome
    requires CodeOk(code)
    decreases |code|
  {
    if code == [] then Fall(s)
    else
      match code[0]
      case Fix(b) =>
        if b.HaltBlock? then Stop(s)
        else
          var s' := ExecBlock(s, b);
          if b.dst == Pc && b.Times(s) > 0 then Jump(s') else RunCode(s', code[1..])
      case Via(f, d, m, k) =>
        var a := Peek(s.mem, f / 4);
        if !Aligned(Mem(a), m.size) then Stop(s) else RunCode(Burst(s, Mem(a), d, m, k), code[1..])
  }

  function Fixed(bs: seq<Block>): (code: seq<Code>)
    ensures |code| == |bs| && forall i :: 0 <= i < |bs| ==> code[i] == Fix(bs[i])
  {
    seq(|bs|, i requires 0 <= i < |bs| => Fix(bs[i]))
  }

  lemma {:induction false} FixedRuns(s: State, bs: seq<Block>)
    requires AllOk(bs)
    ensures CodeOk(Fixed(bs)) && RunCode(s, Fixed(bs)) == RunBlocks(s, bs)
    decreases |bs|
  {
    hide ExecBlock;
    if bs != [] {
      assert Fixed(bs)[1..] == Fixed(bs[1..]);
      if bs[0].Block? { FixedRuns(ExecBlock(s, bs[0]), bs[1..]); }
    }
  }

  lemma {:induction false} CodeSplit(s: State, x: seq<Code>, y: seq<Code>, u: State)
    requires CodeOk(x) && CodeOk(y) && RunCode(s, x) == Fall(u)
    ensures CodeOk(x + y) && RunCode(s, x + y) == RunCode(u, y)
    decreases |x|
  {
    hide ExecBlock, Burst;
    if x == [] {
      assert x + y == y;
    } else {
      assert (x + y)[1..] == x[1..] + y;
      match x[0]
      case Fix(b) => CodeSplit(ExecBlock(s, b), x[1..], y, u);
      case Via(f, d, m, k) => CodeSplit(Burst(s, Mem(Peek(s.mem, f / 4)), d, m, k), x[1..], y, u);
    }
  }

  /** Stretches of code by address; each ends in a jump. */
  type Text = map<int, seq<Code>>

  predicate Has(text: Text, at: int, bs: seq<Block>) {
    at in text && text[at] == Fixed(bs)
  }

  /** n jumps from s lead to the address goal. */
  ghost predicate Reaches(text: Text, s: State, goal: int, n: nat)
    decreases n, 0
  {
    if n == 0 then s.pc == goal else s.pc in text && Leads(text, s, text[s.pc], goal, n - 1)
  }

  /** Running code from s, and n jumps behind it, lead to goal. */
  ghost predicate Leads(text: Text, s: State, code: seq<Code>, goal: int, n: nat)
    decreases n, 1
  {
    CodeOk(code) && RunCode(s, code).Jump? && Reaches(text, RunCode(s, code).s, goal, n)
  }

  lemma {:induction false} BlocksLead(text: Text, s: State, bs: seq<Block>, u: State, goal: int, n: nat)
    requires AllOk(bs) && RunBlocks(s, bs) == Jump(u) && Reaches(text, u, goal, n)
    ensures Leads(text, s, Fixed(bs), goal, n)
  {
    FixedRuns(s, bs);
  }

  /** Code behind a stretch that falls through. */
  lemma {:induction false} LeadsBehind(text: Text, s: State, bs: seq<Block>, u: State, code: seq<Code>, goal: int,
                                       n: nat)
    requires AllOk(bs) && RunBlocks(s, bs) == Fall(u) && Leads(text, u, code, goal, n)
    ensures Leads(text, s, Fixed(bs) + code, goal, n)
  {
    FixedRuns(s, bs);
    CodeSplit(s, Fixed(bs), code, u);
  }

  /** A stretch that is a single jump through a cell. */
  lemma JumpThrough(s: State, l: Loc)
    requires Cell(l)
    ensures AllOk([Pl(l, Pc)]) && RunBlocks(s, [Pl(l, Pc)]) == Jump(s.(pc := Val(s, l)))
  {
    hide ExecBlock;
    MoveOnce(s, l, Pc, PLAIN);
  }

  lemma {:induction false} JumpReaches(text: Text, s: State, l: Loc, goal: int, n: nat)
    requires Cell(l) && Has(text, s.pc, [Pl(l, Pc)]) && Reaches(text, s.(pc := Val(s, l)), goal, n)
    ensures Reaches(text, s, goal, n + 1)
  {
    JumpThrough(s, l);
    BlocksLead(text, s, [Pl(l, Pc)], s.(pc := Val(s, l)), goal, n);
  }

  /** A trampoline pair at base whose slots jump to the labels clear and set. */
  ghost predicate PairAt(text: Text, r: Regs, base: Word, clear: Word, set1: Word) {
    && clear in r.env.lits && set1 in r.env.lits && base + 128 < M32
    && Has(text, base, [Pl(r.Lit(clear), Pc)]) && Has(text, base + 128, [Pl(r.Lit(set1), Pc)])
  }

  /** The slot a sign selects leads to its label. */
  lemma {:induction false} Dispatched(text: Text, s: State, r: Regs, base: Word, clear: Word, set1: Word, neg: bool,
                                      goal: int, n: nat)
    requires Loaded(r, s) && PairAt(text, r, base, clear, set1) && s.pc == Add(if neg then 128 else 0, base)
    requires Reaches(text, s.(pc := if neg then set1 else clear), goal, n)
    ensures Reaches(text, s, goal, n + 1)
  {
    hide Reaches;
    JumpReaches(text, s, r.Lit(if neg then set1 else clear), goal, n);
  }

  // ----- the millicode in place -----

  /** Helper h is loaded at entry: its code, its pair, and the two labels that jump through the
      target words. */
  datatype Loc2 = Loc2(entry: Word, base: Word, clear: Word, set1: Word)

  ghost predicate HelperAt(text: Text, r: Regs, c: Cw, h: Helper, m: Loc2) {
    && r.Ok() && PoolHas(r) && m.base in r.env.lits && Has(text, m.entry, HelperCode(h, r, c, r.Lit(m.base)))
    && PairAt(text, r, m.base, m.clear, m.set1)
    && Has(text, m.clear, [Pl(Mem(if YesOnSet(h) then c.F() else c.T()), Pc)])
    && Has(text, m.set1, [Pl(Mem(if YesOnSet(h) then c.T() else c.F()), Pc)])
  }

  lemma LitFree(r: Regs, v: Word)
    requires r.Ok() && v in r.env.lits
    ensures Free(r, r.Lit(v))
  {
    assert r.env.Pool(r.env.lits[v] / 4);
  }

  /** From its entry, a helper reaches the target word its question selects. */
  lemma HelperReaches(text: Text, s: State, r: Regs, c: Cw, h: Helper, m: Loc2)
    requires Loaded(r, s) && CwOk(r, c) && HelperAt(text, r, c, h, m) && s.pc == m.entry
    requires InRange(h, Val(s, Mem(c.a)), Val(s, Mem(c.b)))
    ensures Reaches(text, s,
              if Holds(h, Val(s, Mem(c.a)), Val(s, Mem(c.b))) then Val(s, Mem(c.T())) else Val(s, Mem(c.F())), 3)
  {
    hide RunBlocks, Tested, HelperCode, Add, Neg, Holds, InRange;
    var x, y := Val(s, Mem(c.a)), Val(s, Mem(c.b));
    var neg := Neg(Tested(h, x, y));
    HelperExact(h, x, y);
    LitFree(r, m.base); CwFree(r, c);
    HelperMeans(h, s, r, c, r.Lit(m.base));
    var s1 := RunBlocks(s, HelperCode(h, r, c, r.Lit(m.base))).s;
    StillLoaded(r, s, s1);
    var s2 := s1.(pc := if neg then m.set1 else m.clear);
    var cell := Mem(if neg == YesOnSet(h) then c.T() else c.F());
    var s3 := s2.(pc := Val(s2, cell));
    assert Val(s2, cell) == Val(s, cell);
    assert Reaches(text, s3, Val(s, cell), 0);
    JumpReaches(text, s2, cell, Val(s, cell), 0);
    Dispatched(text, s1, r, m.base, m.clear, m.set1, neg, Val(s, cell), 1);
    BlocksLead(text, s, HelperCode(h, r, c, r.Lit(m.base)), s1, Val(s, cell), 2);
  }

  // ----- the four-move form -----

  /** The zero tests take one operand. */
  predicate OneOperand(h: Helper) {
    h == Eqz || h == Eqzp
  }

  /** Targets, operands, jump; a zero test has no second operand. */
  function FourMove(r: Regs, c: Cw, two: bool, a: Loc, b: Loc, t: Word, f: Word, entry: Word): seq<Block>
    requires t in r.env.lits && f in r.env.lits && entry in r.env.lits
  {
    [Pl(r.Lit(t), Mem(c.T())), Pl(r.Lit(f), Mem(c.F()))] +
    (if two then [Pl(a, Mem(c.a)), Pl(b, Mem(c.b))] else [Pl(a, Mem(c.a))]) + [Pl(r.Lit(entry), Pc)]
  }

  lemma CopyExec(s: State, x: Loc, d: Loc)
    requires Cell(x) && Cell(d)
    ensures ExecBlock(s, Pl(x, d)) == Put(s, d, Val(s, x))
  {
    hide ExecBlock;
    MoveOnce(s, x, d, PLAIN);
  }

  /** An operand outside the words a site fills in. */
  ghost predicate Operand(r: Regs, c: Cw, l: Loc) {
    Free(r, l) && l.addr / 4 !in c.Cells()
  }

  /** A state that differs from s in the comparison words only is still loaded. */
  lemma CwLoaded(r: Regs, c: Cw, s: State, t: State)
    requires Loaded(r, s) && CwOk(r, c) && Same(s, t, c.Cells())
    ensures Loaded(r, t) && forall l :: Operand(r, c, l) ==> Val(t, l) == Val(s, l)
  {
    forall v | v in r.env.lits ensures Val(t, r.Lit(v)) == v {
      assert r.env.Pool(r.env.lits[v] / 4);
    }
  }

  lemma LitOperand(r: Regs, c: Cw, v: Word)
    requires CwOk(r, c) && v in r.env.lits
    ensures Operand(r, c, r.Lit(v))
  {
    assert r.env.Pool(r.env.lits[v] / 4);
    LitFree(r, v);
  }

  lemma FourMoveMeans(s: State, r: Regs, c: Cw, two: bool, a: Loc, b: Loc, t: Word, f: Word, entry: Word)
    requires Loaded(r, s) && CwOk(r, c) && Operand(r, c, a) && (two ==> Operand(r, c, b))
    requires t in r.env.lits && f in r.env.lits && entry in r.env.lits
    ensures var code := FourMove(r, c, two, a, b, t, f, entry);
            AllOk(code) && RunBlocks(s, code).Jump? &&
            var u := RunBlocks(s, code).s;
            u.pc == entry && Same(s, u, c.Cells()) && Val(u, Mem(c.a)) == Val(s, a)
                && (two ==> Val(u, Mem(c.b)) == Val(s, b)) &&
            Val(u, Mem(c.T())) == t && Val(u, Mem(c.F())) == f
  {
    hide ExecBlock, RunBlocks, CwOk, Loaded;
    var u := Filled(s, r, c, two, a, b, t, f);
    LitCell(r, c, s, u, entry);
    ThenJump(s, [Pl(r.Lit(t), Mem(c.T())), Pl(r.Lit(f), Mem(c.F()))] +
                (if two then [Pl(a, Mem(c.a)), Pl(b, Mem(c.b))] else [Pl(a, Mem(c.a))]), u, r.Lit(entry));
  }

  lemma LitCell(r: Regs, c: Cw, s: State, u: State, v: Word)
    requires Loaded(r, s) && CwOk(r, c) && Same(s, u, c.Cells()) && v in r.env.lits
    ensures Cell(r.Lit(v)) && Val(u, r.Lit(v)) == v
  {
    LitOperand(r, c, v);
    CwLoaded(r, c, s, u);
  }

  lemma TargetCells(r: Regs, c: Cw)
    requires CwOk(r, c)
    ensures c.a % 4 == 0 && c.b % 4 == 0 && c.d % 4 == 0 && c.pb % 4 == 0 && c.Pa() % 4 == 0
    ensures c.T() % 4 == 0 && c.F() % 4 == 0 && c.T() / 4 in c.Cells() && c.F() / 4 in c.Cells()
    ensures c.T() / 4 != c.a / 4 && c.T() / 4 != c.b / 4 && c.F() / 4 != c.a / 4 && c.F() / 4 != c.b / 4
  {
    CwIndices(r, c);
    hide CwOk;
  }

  /** The targets and operands in place. */
  lemma Filled(s: State, r: Regs, c: Cw, two: bool, a: Loc, b: Loc, t: Word, f: Word) returns (u: State)
    requires Loaded(r, s) && CwOk(r, c) && Operand(r, c, a) && (two ==> Operand(r, c, b)) && t in r.env.lits
    requires f in r.env.lits
    ensures var code := [Pl(r.Lit(t), Mem(c.T())), Pl(r.Lit(f), Mem(c.F()))] +
                        (if two then [Pl(a, Mem(c.a)), Pl(b, Mem(c.b))] else [Pl(a, Mem(c.a))]);
            AllOk(code) && RunBlocks(s, code) == Fall(u)
    ensures Same(s, u, c.Cells()) && Val(u, Mem(c.a)) == Val(s, a) && (two ==> Val(u, Mem(c.b)) == Val(s, b)) &&
            Val(u, Mem(c.T())) == t && Val(u, Mem(c.F())) == f
  {
    hide ExecBlock, RunBlocks, CwOk, Loaded;
    TargetCells(r, c);
    LitOperand(r, c, t); LitOperand(r, c, f);
    LitCell(r, c, s, s, t); LitCell(r, c, s, s, f);
    var s2 := TwoCopies(s, r, c, r.Lit(t), c.T(), r.Lit(f), c.F());
    CwLoaded(r, c, s, s2);
    u := Copies(s2, r, c, two, a, b);
    RunSplit(s, [Pl(r.Lit(t), Mem(c.T())), Pl(r.Lit(f), Mem(c.F()))],
        if two then [Pl(a, Mem(c.a)), Pl(b, Mem(c.b))] else [Pl(a, Mem(c.a))]);
  }

  lemma Copies(s: State, r: Regs, c: Cw, two: bool, a: Loc, b: Loc) returns (u: State)
    requires Loaded(r, s) && CwOk(r, c) && Operand(r, c, a) && (two ==> Operand(r, c, b))
    ensures RunBlocks(s, if two then [Pl(a, Mem(c.a)), Pl(b, Mem(c.b))] else [Pl(a, Mem(c.a))]) == Fall(u)
    ensures Same(s, u, {c.a / 4, c.b / 4}) && Same(s, u, c.Cells()) && Val(u, Mem(c.a)) == Val(s, a)
    ensures two ==> Val(u, Mem(c.b)) == Val(s, b)
  {
    hide ExecBlock, RunBlocks;
    if two {
      u := TwoCopies(s, r, c, a, c.a, b, c.b);
    } else {
      CopyExec(s, a, Mem(c.a));
      Run1(s, Pl(a, Mem(c.a)));
      u := Put(s, Mem(c.a), Val(s, a));
    }
  }

  /** Two operands copied into two of the comparison words. */
  lemma TwoCopies(s: State, r: Regs, c: Cw, x: Loc, dx: int, y: Loc, dy: int) returns (u: State)
    requires Loaded(r, s) && CwOk(r, c) && Operand(r, c, x) && Operand(r, c, y)
    requires dx % 4 == 0 && dy % 4 == 0 && dx / 4 in c.Cells() && dy / 4 in c.Cells() && dx != dy
    ensures RunBlocks(s, [Pl(x, Mem(dx)), Pl(y, Mem(dy))]) == Fall(u) && Same(s, u, {dx / 4, dy / 4})
    ensures Same(s, u, c.Cells())
    ensures Val(u, Mem(dx)) == Val(s, x) && Val(u, Mem(dy)) == Val(s, y)
  {
    hide ExecBlock, RunBlocks;
    CopyExec(s, x, Mem(dx));
    var s1 := Put(s, Mem(dx), Val(s, x));
    assert Val(s1, y) == Val(s, y);
    CopyExec(s1, y, Mem(dy));
    u := Put(s1, Mem(dy), Val(s, y));
    Run2(s, Pl(x, Mem(dx)), Pl(y, Mem(dy)));
  }

  lemma ThenJump(s: State, code: seq<Block>, u: State, l: Loc)
    requires AllOk(code) && RunBlocks(s, code) == Fall(u) && Cell(l)
    ensures AllOk(code + [Pl(l, Pc)]) && RunBlocks(s, code + [Pl(l, Pc)]) == Jump(u.(pc := Val(u, l)))
  {
    hide RunBlocks;
    JumpThrough(u, l);
    RunSplit(s, code, [Pl(l, Pc)]);
  }

  /** A zero test does not look at its second operand. */
  lemma OneOperandOnly(h: Helper, x: Word, y: Word, z: Word)
    requires OneOperand(h)
    ensures Holds(h, x, y) == Holds(h, x, z) && InRange(h, x, y) == InRange(h, x, z)
  {
  }

  /** The four-move form reaches the label its predicate selects. */
  lemma FourMoveLeads(text: Text, s: State, r: Regs, c: Cw, h: Helper, m: Loc2, a: Loc, b: Loc, t: Word, f: Word)
    requires Loaded(r, s) && CwOk(r, c) && HelperAt(text, r, c, h, m) && Operand(r, c, a)
    requires !OneOperand(h) ==> Operand(r, c, b)
    requires t in r.env.lits && f in r.env.lits && m.entry in r.env.lits && b.Mem? && InRange(h, Val(s, a), Val(s, b))
    ensures Leads(text, s, Fixed(FourMove(r, c, !OneOperand(h), a, b, t, f, m.entry)),
              if Holds(h, Val(s, a), Val(s, b)) then t else f, 3)
  {
    hide RunBlocks, FourMove, Holds, InRange, HelperAt;
    var code := FourMove(r, c, !OneOperand(h), a, b, t, f, m.entry);
    FourMoveMeans(s, r, c, !OneOperand(h), a, b, t, f, m.entry);
    var u := RunBlocks(s, code).s;
    CwLoaded(r, c, s, u);
    if OneOperand(h) { OneOperandOnly(h, Val(s, a), Val(s, b), Val(u, Mem(c.b))); }
    HelperReaches(text, u, r, c, h, m);
    BlocksLead(text, s, code, u, if Holds(h, Val(s, a), Val(s, b)) then t else f, 3);
  }

  // ----- the inline form -----

  datatype InlineOp = Jeq | Jlt | Jltu

  function InlineCode(e: Enc, op: InlineOp, r: Regs, a: Loc, b: Loc, pair: Loc): seq<Block>
    requires ONES in r.env.lits && 1 in r.env.lits && 0xFFFFFF7F in r.env.lits
  {
    match op
    case Jeq => JeqM(e, r, a, b, pair)
    case Jlt => JltM(e, r, a, b, pair)
    case Jltu => JltuM(e, r, a, b, pair)
  }

  predicate InlineHolds(op: InlineOp, x: Word, y: Word) {
    match op case Jeq => x == y case Jlt => Signed(x) < Signed(y) case Jltu => x < y
  }

  /** The inline macros, in either encoding, reach the label for every operand: yes sits in the
      sign-clear slot for equality and in the sign-set one for order. */
  lemma InlineLeads(text: Text, s: State, e: Enc, op: InlineOp, r: Regs, a: Loc, b: Loc, base: Word, yes: Word,
                    no: Word)
    requires Loaded(r, s) && PoolHas(r) && Free(r, a) && Free(r, b) && base in r.env.lits
    requires PairAt(text, r, base, if op == Jeq then yes else no, if op == Jeq then no else yes)
    ensures Leads(text, s, Fixed(InlineCode(e, op, r, a, b, r.Lit(base))),
              if InlineHolds(op, Val(s, a), Val(s, b)) then yes else no, 1)
  {
    hide RunBlocks, JeqM, JltM, JltuM, Add, Signed;
    LitFree(r, base);
    match op {
      case Jeq => JeqMeans(e, s, r, a, b, r.Lit(base));
      case Jlt => JltMeans(e, s, r, a, b, r.Lit(base));
      case Jltu => JltuMeans(e, s, r, a, b, r.Lit(base));
    }
    var code := InlineCode(e, op, r, a, b, r.Lit(base));
    var s1 := RunBlocks(s, code).s;
    StillLoaded(r, s, s1);
    var holds := InlineHolds(op, Val(s, a), Val(s, b));
    var goal := if holds then yes else no;
    assert Reaches(text, s1.(pc := goal), goal, 0);
    Dispatched(text, s1, r, base, if op == Jeq then yes else no,
        if op == Jeq then no else yes, holds == (op != Jeq), goal, 0);
    BlocksLead(text, s, code, s1, goal, 1);
  }

  lemma SlotOf(k: Word, x: Word, base: Word)
    requires x <= 1 && base + k < M32
    ensures Add(Wrap(k * x), base) == if x == 1 then base + k else base
  {
  }

  /** The two slots of a jneg or jbool, one slot apart. */
  ghost predicate SlotsAt(text: Text, e: Enc, r: Regs, tramp: Word, clear: Word, set1: Word) {
    && tramp in r.env.lits && tramp + JnegSlot(e) < M32 && clear in r.env.lits && set1 in r.env.lits
    && Has(text, tramp, [Pl(r.Lit(clear), Pc)]) && Has(text, tramp + JnegSlot(e), [Pl(r.Lit(set1), Pc)])
  }

  /** jbool on a 0/1 word reaches its first slot's label on 0 and its second's on 1. */
  lemma JboolLeads(text: Text, s: State, e: Enc, r: Regs, v: Loc, tramp: Word, ifFalse: Word, ifTrue: Word)
    requires Loaded(r, s) && Free(r, v) && Val(s, v) <= 1 && SlotsAt(text, e, r, tramp, ifFalse, ifTrue)
    ensures Leads(text, s, Fixed(JboolM(e, r, v, r.Lit(tramp))), if Val(s, v) == 1 then ifTrue else ifFalse, 1)
  {
    hide RunBlocks, JboolM, Add, Wrap;
    LitFree(r, tramp);
    JboolMeans(e, s, r, v, r.Lit(tramp));
    var s1 := RunBlocks(s, JboolM(e, r, v, r.Lit(tramp))).s;
    StillLoaded(r, s, s1);
    var x := Val(s, v);
    SlotOf(JnegSlot(e), x, tramp);
    var l := if x == 1 then ifTrue else ifFalse;
    assert Reaches(text, s1.(pc := l), l, 0);
    JumpReaches(text, s1, r.Lit(l), l, 0);
    BlocksLead(text, s, JboolM(e, r, v, r.Lit(tramp)), s1, l, 1);
  }

  /** jneg on a word in its range reaches its first slot's label when the word is not negative and
      its second's when it is. */
  lemma JnegLeads(text: Text, s: State, e: Enc, r: Regs, v: Loc, tramp: Word, nonneg: Word, neg: Word)
    requires Loaded(r, s) && Cell(v) && JnegMask(e) in r.env.lits && SlotsAt(text, e, r, tramp, nonneg, neg)
    requires Val(s, v) < Pow2(JnegBit(e)) || Val(s, v) >= M32 - Pow2(JnegBit(e))
    ensures Leads(text, s, Fixed(JnegM(e, r, v, r.Lit(tramp))), if Neg(Val(s, v)) then neg else nonneg, 1)
  {
    hide RunBlocks, JnegM, Add, Pow2, Bit;
    LitFree(r, tramp);
    JnegMeans(e, s, r, v, r.Lit(tramp));
    JnegRange(e, Val(s, v));
    var s1 := RunBlocks(s, JnegM(e, r, v, r.Lit(tramp))).s;
    StillLoaded(r, s, s1);
    var x := Neg(Val(s, v));
    SlotAdd(JnegSlot(e), x, tramp);
    var l := if x then neg else nonneg;
    assert Reaches(text, s1.(pc := l), l, 0);
    JumpReaches(text, s1, r.Lit(l), l, 0);
    BlocksLead(text, s, JnegM(e, r, v, r.Lit(tramp)), s1, l, 1);
  }

  lemma SlotAdd(k: Word, x: bool, base: Word)
    requires base + k < M32
    ensures Add(if x then k else 0, base) == if x then base + k else base
  {
  }

  // ----- the descriptor form -----

  /** A run of words copied upward: whole words in the classic encoding, bytes in the compact. */
  function CopyMode(e: Enc): (m: Mode)
    ensures m.Ok() && m.incrR && m.incrW && !m.bswap && !m.sniff
  {
    if e == Classic then Mode(4, true, true, false, false) else BankMode(SIZE8RW)
  }

  function CopyCount(e: Enc, n: nat): nat {
    if e == Classic then n else 4 * n
  }

  /** A byte burst over an aligned word, one byte in. */
  lemma ByteStep(s: State, a: int, b: int, i: int, k: nat)
    requires a % 4 == 0 && b % 4 == 0 && a != b && 0 <= i < 4
    ensures Aligned(Mem(a + i), 1) && Aligned(Mem(b + i), 1) && Aligned(Mem(a + i + 1), 1) && Aligned(Mem(b + i + 1), 1)
    ensures var m := BankMode(SIZE8RW);
            Burst(s, Mem(a + i), Mem(b + i), m, k + 1) ==
            Burst(Put(s, Mem(b), PutField(Val(s, Mem(b)), i, 1, Field(Val(s, Mem(a)), i, 1))), Mem(a + i + 1),
                Mem(b + i + 1), m, k)
  {
    hide PutField, Field, Move;
    ByteMove(s, a, b, i);
  }

  lemma PutTwice(s: State, b: int, v: Word, w: Word)
    ensures Put(Put(s, Mem(b), v), Mem(b), w) == Put(s, Mem(b), w)
  {
    assert s.mem[b / 4 := v][b / 4 := w] == s.mem[b / 4 := w];
  }

  lemma BurstFour(s: State, a: int, b: int, k: nat)
    requires a % 4 == 0 && b % 4 == 0 && a != b
    ensures Aligned(Mem(a), 1) && Aligned(Mem(b), 1) && Aligned(Mem(a + 4), 1) && Aligned(Mem(b + 4), 1)
    ensures var m := BankMode(SIZE8RW);
            Burst(s, Mem(a), Mem(b), m, 4 + k) == Burst(Put(s, Mem(b), Val(s, Mem(a))), Mem(a + 4), Mem(b + 4), m, k)
  {
    hide PutField, Field, Burst, Move, BankMode;
    var x, y := Val(s, Mem(a)), Val(s, Mem(b));
    var y1 := PutField(y, 0, 1, Field(x, 0, 1));
    var y2 := PutField(y1, 1, 1, Field(x, 1, 1));
    var y3 := PutField(y2, 2, 1, Field(x, 2, 1));
    var y4 := PutField(y3, 3, 1, Field(x, 3, 1));
    AllBytes(y, x);
    ByteStep(s, a, b, 0, 3 + k);
    var s1 := Put(s, Mem(b), y1);
    assert Val(s1, Mem(a)) == x && Val(s1, Mem(b)) == y1;
    ByteStep(s1, a, b, 1, 2 + k);
    PutTwice(s, b, y1, y2);
    var s2 := Put(s, Mem(b), y2);
    assert Val(s2, Mem(a)) == x && Val(s2, Mem(b)) == y2;
    ByteStep(s2, a, b, 2, 1 + k);
    PutTwice(s, b, y2, y3);
    var s3 := Put(s, Mem(b), y3);
    assert Val(s3, Mem(a)) == x && Val(s3, Mem(b)) == y3;
    ByteStep(s3, a, b, 3, k);
    PutTwice(s, b, y3, y4);
  }

  /** One byte of an aligned pair of words. */
  lemma ByteMove(s: State, a: int, b: int, i: int)
    requires a % 4 == 0 && b % 4 == 0 && a != b && 0 <= i < 4
    ensures Aligned(Mem(a + i), 1) && Aligned(Mem(b + i), 1)
    ensures Move(s, Mem(a + i), Mem(b + i), BankMode(SIZE8RW))
              == Put(s, Mem(b), PutField(Val(s, Mem(b)), i, 1, Field(Val(s, Mem(a)), i, 1)))
  {
    hide PutField, Field;
    assert (a + i) / 4 == a / 4 && (a + i) % 4 == i && (b + i) / 4 == b / 4 && (b + i) % 4 == i;
  }

  lemma AllBytes(y: Word, x: Word)
    ensures PutField(PutField(PutField(PutField(y, 0, 1, Field(x, 0, 1)), 1, 1, Field(x, 1, 1)), 2, 1, Field(x, 2, 1)),
              3, 1, Field(x, 3, 1)) == x
  {
    hide Field, PutField;
    BytesOf(x);
    BytesLaid(y, Field(x, 0, 1), Field(x, 1, 1), Field(x, 2, 1), Field(x, 3, 1));
  }

  lemma BytesOf(x: Word)
    ensures Field(x, 0, 1) < 0x100 && Field(x, 1, 1) < 0x100 && Field(x, 2, 1) < 0x100 && Field(x, 3, 1) < 0x100
    ensures x == Field(x, 0, 1) + 0x100 * Field(x, 1, 1) + 0x1_0000 * Field(x, 2, 1) + 0x100_0000 * Field(x, 3, 1)
  {
    Asm.Bytes(x);
    hide Field;
  }

  lemma LowBytes(y: Word, b: Word)
    requires b < 0x100
    ensures PutField(y, 0, 1, b) % 0x100 == b && PutField(y, 1, 1, b) % 0x1_0000 == y % 0x100 + 0x100 * b
    ensures PutField(y, 2, 1, b) % 0x100_0000 == y % 0x1_0000 + 0x1_0000 * b
    ensures PutField(y, 3, 1, b) == y % 0x100_0000 + 0x100_0000 * b
  {
    Remainder(y / 0x100, 0x100, b);
    Remainder(y / 0x1_0000, 0x1_0000, b * 0x100 + y % 0x100);
    Remainder(y / 0x100_0000, 0x100_0000, b * 0x1_0000 + y % 0x1_0000);
  }

  lemma Remainder(q: int, p: int, r: int)
    requires p > 0 && 0 <= r < p
    ensures (q * p + r) % p == r
  {
    QuotientOf(q * p + r, p, q, r);
  }

  lemma BytesLaid(y: Word, b0: Word, b1: Word, b2: Word, b3: Word)
    requires b0 < 0x100 && b1 < 0x100 && b2 < 0x100 && b3 < 0x100
    ensures PutField(PutField(PutField(PutField(y, 0, 1, b0), 1, 1, b1), 2, 1, b2), 3, 1, b3)
              == b0 + 0x100 * b1 + 0x1_0000 * b2 + 0x100_0000 * b3
  {
    hide PutField;
    LowBytes(y, b0);
    var y1 := PutField(y, 0, 1, b0);
    LowBytes(y1, b1);
    var y2 := PutField(y1, 1, 1, b1);
    LowBytes(y2, b2);
    LowBytes(PutField(y2, 2, 1, b2), b3);
  }

  /** t is s with n words copied from word index i to word index j. */
  ghost predicate Copied(s: State, t: State, i: int, j: int, n: nat) {
    && t == s.(mem := t.mem)
    && (forall k :: j <= k < j + n ==> Peek(t.mem, k) == Peek(s.mem, k - j + i))
    && (forall k :: !(j <= k < j + n) ==> Peek(t.mem, k) == Peek(s.mem, k))
  }

  /** The copy moves the words of the source run, in either encoding. */
  lemma {:induction false} WordCopyMeans(e: Enc, s: State, a: int, b: int, n: nat)
    requires a % 4 == 0 && b % 4 == 0 && (a / 4 + n <= b / 4 || b / 4 + n <= a / 4)
    ensures Aligned(Mem(a), CopyMode(e).size) && Aligned(Mem(b), CopyMode(e).size)
    ensures Copied(s, Burst(s, Mem(a), Mem(b), CopyMode(e), CopyCount(e, n)), a / 4, b / 4, n)
    decreases n
  {
    hide Burst, BankMode, CopyMode;
    if n == 0 {
      NoCopy(e, s, a, b);
    } else {
      CopyStep(e, s, a, b, n);
      var s1 := Put(s, Mem(b), Val(s, Mem(a)));
      WordCopyMeans(e, s1, a + 4, b + 4, n - 1);
      hide Copied;
      CopiedStep(s, s1, Burst(s, Mem(a), Mem(b), CopyMode(e), CopyCount(e, n)), a / 4, b / 4, n);
    }
  }

  lemma CopiedStep(s: State, s1: State, t: State, i: int, j: int, n: nat)
    requires n > 0 && (i + n <= j || j + n <= i) && s1 == s.(mem := s.mem[j := Peek(s.mem, i)])
    requires Copied(s1, t, i + 1, j + 1, n - 1)
    ensures Copied(s, t, i, j, n)
  {
    assert forall k :: k != j ==> Peek(s1.mem, k) == Peek(s.mem, k);
    forall k | j <= k < j + n ensures Peek(t.mem, k) == Peek(s.mem, k - j + i) {
      assert k > j ==> Peek(t.mem, k) == Peek(s1.mem, k - (j + 1) + (i + 1));
    }
  }

  lemma NoCopy(e: Enc, s: State, a: int, b: int)
    requires a % 4 == 0 && b % 4 == 0
    ensures Aligned(Mem(a), CopyMode(e).size) && Aligned(Mem(b), CopyMode(e).size)
    ensures Burst(s, Mem(a), Mem(b), CopyMode(e), CopyCount(e, 0)) == s
  {
  }

  lemma CopyStep(e: Enc, s: State, a: int, b: int, n: nat)
    requires a % 4 == 0 && b % 4 == 0 && a != b && n > 0
    ensures Aligned(Mem(a), CopyMode(e).size) && Aligned(Mem(b), CopyMode(e).size)
    ensures Aligned(Mem(a + 4), CopyMode(e).size) && Aligned(Mem(b + 4), CopyMode(e).size)
    ensures Burst(s, Mem(a), Mem(b), CopyMode(e), CopyCount(e, n)) ==
            Burst(Put(s, Mem(b), Val(s, Mem(a))), Mem(a + 4), Mem(b + 4), CopyMode(e), CopyCount(e, n - 1))
  {
    if e == Compact {
      hide Burst;
      BurstFour(s, a, b, 4 * (n - 1));
    } else {
      CopyWord(s, a, b, n - 1);
    }
  }

  lemma CopyWord(s: State, a: int, b: int, k: nat)
    requires a % 4 == 0 && b % 4 == 0
    ensures var m := Mode(4, true, true, false, false);
            Burst(s, Mem(a), Mem(b), m, k + 1) == Burst(Put(s, Mem(b), Val(s, Mem(a))), Mem(a + 4), Mem(b + 4), m, k)
  {
    assert Move(s, Mem(a), Mem(b), Mode(4, true, true, false, false)) == Put(s, Mem(b), Val(s, Mem(a)));
    hide Move;
  }

  /** A constant descriptor at d: the address of b (when there are two operands), the targets and
      the address of a, outside the words it is unpacked into. */
  ghost predicate DescAt(s: State, r: Regs, c: Cw, two: bool, d: int, a: Loc, b: Loc, t: Word, f: Word) {
    var i, n := d / 4, if two then 4 else 3;
    && d % 4 == 0 && a.Mem? && (two ==> b.Mem?)
    && (forall k :: i <= k < i + n ==> k !in c.Cells())
    && (two ==> Peek(s.mem, i) == b.addr)
    && Peek(s.mem, i + n - 3) == t && Peek(s.mem, i + n - 2) == f && Peek(s.mem, i + n - 1) == a.addr
  }

  /** Where the READ words of the three patched records of an unpack sequence at at lie: every
      second block in classic code; in compact code the copy is its instruction's third record. */
  function FieldAt(e: Enc, at: int, i: int): int {
    if e == Classic then at + 16 + 32 * i else if i == 0 then at + 24 else at + 32 + 16 * i
  }

  function FieldCells(e: Enc, at: int): set<int> {
    {FieldAt(e, at, 0) / 4, FieldAt(e, at, 1) / 4, FieldAt(e, at, 2) / 4}
  }

  /** Patch the next record with the word in x, and run it. */
  function PatchCode(x: int, field: int, d: Loc, m: Mode, k: nat): seq<Code> {
    [Fix(Pl(Mem(x), Mem(field))), Via(field, d, m, k)]
  }

  /** The descriptor copied onto the contiguous cells, then dereferenced into the operand cells. */
  function UnpackCode(e: Enc, r: Regs, c: Cw, two: bool, at: int, entry: Word): seq<Code>
    requires entry in r.env.lits
  {
    PatchCode(c.d, FieldAt(e, at, 0), Mem(if two then c.pb else c.T()), CopyMode(e),
        CopyCount(e, if two then 4 else 3)) +
    PatchCode(c.Pa(), FieldAt(e, at, 1), Mem(c.a), BankMode(PLAIN), 1) +
    (if two then PatchCode(c.pb, FieldAt(e, at, 2), Mem(c.b), BankMode(PLAIN), 1) else []) +
    Fixed([Pl(r.Lit(entry), Pc)])
  }

  /** The patched words are no data of the comparison's. */
  ghost predicate TextApart(e: Enc, r: Regs, c: Cw, at: int) {
    var w := FieldCells(e, at);
    at % 8 == 0 && w !! c.Cells() && w !! Scratch(r) && r.zero / 4 !in w && forall i :: i in w ==> !r.env.Pool(i)
  }

  /** A patch changes the record behind it: that record moves from the address in x. */
  lemma {:induction false} PatchRuns(s: State, x: int, field: int, d: Loc, m: Mode, k: nat)
    requires x % 4 == 0 && field % 4 == 0 && m.Ok() && Aligned(d, m.size) && d != Pc
    requires Aligned(Mem(Val(s, Mem(x))), m.size)
    ensures CodeOk(PatchCode(x, field, d, m, k))
    ensures var s1 := Put(s, Mem(field), Val(s, Mem(x)));
            RunCode(s, PatchCode(x, field, d, m, k)) == Fall(Burst(s1, Mem(Val(s, Mem(x))), d, m, k))
  {
    hide ExecBlock, Burst;
    CopyExec(s, Mem(x), Mem(field));
    var s1, code := Put(s, Mem(field), Val(s, Mem(x))), PatchCode(x, field, d, m, k);
    assert Peek(s1.mem, field / 4) == Val(s, Mem(x));
    assert code[1..] == [Via(field, d, m, k)] && code[1..][1..] == [];
    assert RunCode(s, code) == RunCode(s1, code[1..]);
    var s2 := Burst(s1, Mem(Val(s, Mem(x))), d, m, k);
    assert RunCode(s2, []) == Fall(s2);
    assert RunCode(s1, code[1..]) == RunCode(s2, []);
  }

  /** A single word moved through a patched record. */
  lemma {:induction false} PatchMoves(s: State, x: int, field: int, d: int)
    requires x % 4 == 0 && field % 4 == 0 && d % 4 == 0 && Val(s, Mem(x)) % 4 == 0
    ensures var v := Val(s, Mem(x));
            var s1 := Put(s, Mem(field), v);
            && CodeOk(PatchCode(x, field, Mem(d), BankMode(PLAIN), 1))
            && RunCode(s, PatchCode(x, field, Mem(d), BankMode(PLAIN), 1)) == Fall(Put(s1, Mem(d), Val(s1, Mem(v))))
  {
    hide Burst, ExecBlock, RunCode;
    var v := Val(s, Mem(x));
    PatchRuns(s, x, field, Mem(d), BankMode(PLAIN), 1);
    MoveOnce(Put(s, Mem(field), v), Mem(v), Mem(d), PLAIN);
    OneBlock(Put(s, Mem(field), v), v, d);
  }

  lemma OneBlock(s: State, a: int, d: int)
    requires a % 4 == 0 && d % 4 == 0
    ensures Burst(s, Mem(a), Mem(d), BankMode(PLAIN), 1) == ExecBlock(s, Pl(Mem(a), Mem(d)))
  {
    hide Burst;
  }

  /** What the comparison words hold once a site has filled them. */
  ghost predicate Primed(s: State, u: State, c: Cw, two: bool, a: Loc, b: Loc, t: Word, f: Word, w: set<int>)
    requires Cell(a) && (two ==> Cell(b)) && c.a % 4 == 0 && c.b % 4 == 0 && c.pb % 4 == 0
  {
    && Same(s, u, w) && Val(u, Mem(c.a)) == Val(s, a) && (two ==> Val(u, Mem(c.b)) == Val(s, b))
    && Val(u, Mem(c.T())) == t && Val(u, Mem(c.F())) == f
  }

  /** An operand the unpack sequence does not overwrite. */
  ghost predicate Described(e: Enc, r: Regs, c: Cw, at: int, l: Loc) {
    Operand(r, c, l) && l.addr / 4 !in FieldCells(e, at) && 0 <= l.addr < M32
  }

  /** The descriptor lies outside the patched words. */
  ghost predicate DescClear(e: Enc, at: int, two: bool, d: int) {
    forall k :: d / 4 <= k < d / 4 + (if two then 4 else 3) ==> k !in FieldCells(e, at)
  }

  lemma FieldsAligned(e: Enc, at: int)
    requires at % 8 == 0
    ensures FieldAt(e, at, 0) % 4 == 0 && FieldAt(e, at, 1) % 4 == 0 && FieldAt(e, at, 2) % 4 == 0
  {
    var q := 2 * (at / 8);
    assert at == 4 * q;
    if e == Classic {
      Quad(FieldAt(e, at, 0), q + 4); Quad(FieldAt(e, at, 1), q + 12); Quad(FieldAt(e, at, 2), q + 20);
    } else {
      Quad(FieldAt(e, at, 0), q + 6); Quad(FieldAt(e, at, 1), q + 12); Quad(FieldAt(e, at, 2), q + 16);
    }
  }

  lemma Quad(x: int, k: int)
    requires x == 4 * k
    ensures x % 4 == 0
  {
  }

  /** The descriptor's words on the contiguous cells. */
  lemma {:induction false} UnpackCopies(e: Enc, s: State, r: Regs, c: Cw, two: bool, at: int, d: Word, a: Loc, b: Loc,
                                        t: Word, f: Word) returns (u: State)
    requires CwOk(r, c) && TextApart(e, r, c, at) && Described(e, r, c, at, a) && (two ==> Described(e, r, c, at, b))
    requires Val(s, Mem(c.d)) == d && DescAt(s, r, c, two, d, a, b, t, f) && DescClear(e, at, two, d)
    ensures var code := PatchCode(c.d, FieldAt(e, at, 0), Mem(if two then c.pb else c.T()), CopyMode(e),
              CopyCount(e, if two then 4 else 3));
            CodeOk(code) && RunCode(s, code) == Fall(u)
    ensures Same(s, u, c.Cells() + {FieldAt(e, at, 0) / 4}) && Val(u, a) == Val(s, a)
    ensures c.pb % 4 == 0 && Val(u, Mem(c.Pa())) == a.addr && Val(u, Mem(c.T())) == t && Val(u, Mem(c.F())) == f
    ensures two ==> Val(u, Mem(c.pb)) == b.addr && Val(u, b) == Val(s, b)
  {
    var to, n := if two then c.pb else c.T(), if two then 4 else 3;
    var f0 := FieldAt(e, at, 0);
    CwIndices(r, c);
    FieldsAligned(e, at);
    CopyAligned(e, d, to);
    var s1 := Put(s, Mem(f0), d);
    DescKeptBy(s, s1, r, c, two, d, a, b, t, f, f0 / 4);
    u := DescCopied(e, s1, r, c, two, d, a, b, t, f);
    hide Burst, RunCode, CopyMode, CopyCount, DescAt, CwOk;
    PatchRuns(s, c.d, f0, Mem(to), CopyMode(e), CopyCount(e, n));
  }

  /** And the first operand fetched through its address. */
  lemma {:induction false} UnpackFirst(e: Enc, s: State, r: Regs, c: Cw, two: bool, at: int, d: Word, a: Loc, b: Loc,
                                       t: Word, f: Word) returns (u: State)
    requires CwOk(r, c) && TextApart(e, r, c, at) && Described(e, r, c, at, a) && (two ==> Described(e, r, c, at, b))
    requires Val(s, Mem(c.d)) == d && DescAt(s, r, c, two, d, a, b, t, f) && DescClear(e, at, two, d)
    ensures var code := PatchCode(c.d, FieldAt(e, at, 0), Mem(if two then c.pb else c.T()), CopyMode(e),
              CopyCount(e, if two then 4 else 3)) +
                        PatchCode(c.Pa(), FieldAt(e, at, 1), Mem(c.a), BankMode(PLAIN), 1);
            CodeOk(code) && RunCode(s, code) == Fall(u)
    ensures c.a % 4 == 0 && c.b % 4 == 0 && c.pb % 4 == 0
    ensures Same(s, u, c.Cells() + FieldCells(e, at)) && Val(u, Mem(c.a)) == Val(s, a) && Val(u, Mem(c.T())) == t
    ensures Val(u, Mem(c.F())) == f
    ensures two ==> Val(u, Mem(c.pb)) == b.addr && Val(u, b) == Val(s, b)
  {
    var f0, f1 := FieldAt(e, at, 0), FieldAt(e, at, 1);
    CwIndices(r, c);
    FieldsAligned(e, at);
    hide RunCode, CopyMode, CopyCount, DescAt, PatchCode;
    var s2 := UnpackCopies(e, s, r, c, two, at, d, a, b, t, f);
    PatchMoves(s2, c.Pa(), f1, c.a);
    u := FetchedThrough(e, s, s2, r, c, two, at, a, b);
    CodeSplit(s, PatchCode(c.d, f0, Mem(if two then c.pb else c.T()), CopyMode(e), CopyCount(e, if two then 4 else 3)),
              PatchCode(c.Pa(), f1, Mem(c.a), BankMode(PLAIN), 1), s2);
  }

  lemma {:induction false} FetchedThrough(e: Enc, s: State, s2: State, r: Regs, c: Cw, two: bool, at: int, a: Loc,
                                          b: Loc) returns (u: State)
    requires CwOk(r, c) && TextApart(e, r, c, at) && Described(e, r, c, at, a) && (two ==> Described(e, r, c, at, b))
    requires Same(s, s2, c.Cells() + {FieldAt(e, at, 0) / 4}) && Val(s2, a) == Val(s, a)
    requires two ==> Val(s2, b) == Val(s, b)
    ensures c.a % 4 == 0 && c.pb % 4 == 0
    ensures var s3 := Put(s2, Mem(FieldAt(e, at, 1)), a.addr); u == Put(s3, Mem(c.a), Val(s3, a))
    ensures Same(s, u, c.Cells() + FieldCells(e, at)) && Val(u, Mem(c.a)) == Val(s, a)
    ensures Val(u, Mem(c.T())) == Val(s2, Mem(c.T())) && Val(u, Mem(c.F())) == Val(s2, Mem(c.F()))
    ensures two ==> Val(u, Mem(c.pb)) == Val(s2, Mem(c.pb)) && Val(u, b) == Val(s, b)
  {
    CwIndices(r, c);
    FieldsAligned(e, at);
    hide CwOk;
    var s3 := Put(s2, Mem(FieldAt(e, at, 1)), a.addr);
    assert FieldAt(e, at, 1) / 4 in FieldCells(e, at) && FieldAt(e, at, 0) / 4 in FieldCells(e, at);
    assert c.T() / 4 in c.Cells() && c.F() / 4 in c.Cells() && c.pb / 4 in c.Cells() && c.a / 4 in c.Cells();
    assert Val(s3, a) == Val(s2, a);
    u := Put(s3, Mem(c.a), Val(s3, a));
  }

  lemma CopyAligned(e: Enc, a: int, b: int)
    requires a % 4 == 0 && b % 4 == 0
    ensures Aligned(Mem(a), CopyMode(e).size) && Aligned(Mem(b), CopyMode(e).size)
  {
  }

  lemma DescKeptBy(s: State, u: State, r: Regs, c: Cw, two: bool, d: int, a: Loc, b: Loc, t: Word, f: Word, i: int)
    requires DescAt(s, r, c, two, d, a, b, t, f) && Same(s, u, {i}) && !(d / 4 <= i < d / 4 + if two then 4 else 3)
    ensures DescAt(u, r, c, two, d, a, b, t, f)
  {
  }

  /** Unpacking fills the comparison words as four moves would, and jumps to the helper. */
  lemma {:induction false} UnpackRuns(e: Enc, s: State, r: Regs, c: Cw, two: bool, at: int, entry: Word, d: Word,
                                      a: Loc, b: Loc, t: Word, f: Word) returns (u: State)
    requires Loaded(r, s) && CwOk(r, c) && TextApart(e, r, c, at) && Described(e, r, c, at, a)
    requires two ==> Described(e, r, c, at, b)
    requires Val(s, Mem(c.d)) == d && DescAt(s, r, c, two, d, a, b, t, f) && DescClear(e, at, two, d)
    requires entry in r.env.lits
    ensures c.a % 4 == 0 && c.b % 4 == 0 && c.pb % 4 == 0
    ensures CodeOk(UnpackCode(e, r, c, two, at, entry)) && RunCode(s, UnpackCode(e, r, c, two, at, entry)) == Jump(u)
    ensures u.pc == entry
    ensures Primed(s, u, c, two, a, b, t, f, c.Cells() + FieldCells(e, at)) && Loaded(r, u)
  {
    hide RunCode, CwOk, DescAt, Loaded, CopyMode, CopyCount;
    var head := PatchCode(c.d, FieldAt(e, at, 0), Mem(if two then c.pb else c.T()), CopyMode(e),
        CopyCount(e, if two then 4 else 3)) +
                PatchCode(c.Pa(), FieldAt(e, at, 1), Mem(c.a), BankMode(PLAIN), 1);
    var s1 := UnpackFirst(e, s, r, c, two, at, d, a, b, t, f);
    var more := if two then PatchCode(c.pb, FieldAt(e, at, 2), Mem(c.b), BankMode(PLAIN), 1) else [];
    var s2 := UnpackSecond(e, s, s1, r, c, two, at, a, b, t, f, head);
    UnpackLoaded(e, r, c, at, s, s2);
    LitCellIs(r, s2, entry);
    JumpThrough(s2, r.Lit(entry));
    FixedRuns(s2, [Pl(r.Lit(entry), Pc)]);
    CodeSplit(s, head + more, Fixed([Pl(r.Lit(entry), Pc)]), s2);
    u := s2.(pc := entry);
    UnpackLoaded(e, r, c, at, s, u);
  }

  lemma LitCellIs(r: Regs, s: State, v: Word)
    requires Loaded(r, s) && v in r.env.lits
    ensures Cell(r.Lit(v)) && Val(s, r.Lit(v)) == v
  {
  }

  /** The second operand, where there is one. */
  lemma {:induction false} UnpackSecond(e: Enc, s: State, s1: State, r: Regs, c: Cw, two: bool, at: int, a: Loc, b: Loc,
                                        t: Word, f: Word, head: seq<Code>)
    returns (u: State)
    requires CwOk(r, c) && TextApart(e, r, c, at) && Described(e, r, c, at, a) && (two ==> Described(e, r, c, at, b))
    requires CodeOk(head) && RunCode(s, head) == Fall(s1) && c.a % 4 == 0 && c.b % 4 == 0 && c.pb % 4 == 0
    requires Same(s, s1, c.Cells() + FieldCells(e, at)) && Val(s1, Mem(c.a)) == Val(s, a) && Val(s1, Mem(c.T())) == t
    requires Val(s1, Mem(c.F())) == f
    requires two ==> Val(s1, Mem(c.pb)) == b.addr && Val(s1, b) == Val(s, b)
    ensures var more := if two then PatchCode(c.pb, FieldAt(e, at, 2), Mem(c.b), BankMode(PLAIN), 1) else [];
            CodeOk(head + more) && RunCode(s, head + more) == Fall(u)
    ensures Primed(s, u, c, two, a, b, t, f, c.Cells() + FieldCells(e, at))
  {
    CwIndices(r, c);
    FieldsAligned(e, at);
    hide RunCode, CwOk;
    if two {
      var f2 := FieldAt(e, at, 2);
      PatchMoves(s1, c.pb, f2, c.b);
      u := SecondFetched(e, s, s1, r, c, at, a, b, t, f);
      hide PatchCode, Primed;
      CodeSplit(s, head, PatchCode(c.pb, f2, Mem(c.b), BankMode(PLAIN), 1), s1);
    } else {
      u := s1;
      assert head + [] == head;
    }
  }

  lemma {:induction false} SecondFetched(e: Enc, s: State, s1: State, r: Regs, c: Cw, at: int, a: Loc, b: Loc, t: Word,
                                         f: Word) returns (u: State)
    requires CwOk(r, c) && TextApart(e, r, c, at) && Described(e, r, c, at, a) && Described(e, r, c, at, b)
    requires c.a % 4 == 0 && c.b % 4 == 0 && c.pb % 4 == 0
    requires Same(s, s1, c.Cells() + FieldCells(e, at)) && Val(s1, Mem(c.a)) == Val(s, a) && Val(s1, Mem(c.T())) == t
    requires Val(s1, Mem(c.F())) == f
    requires Val(s1, b) == Val(s, b)
    ensures var s2 := Put(s1, Mem(FieldAt(e, at, 2)), b.addr); u == Put(s2, Mem(c.b), Val(s2, b))
    ensures Primed(s, u, c, true, a, b, t, f, c.Cells() + FieldCells(e, at))
  {
    CwIndices(r, c);
    FieldsAligned(e, at);
    hide CwOk;
    var s2 := Put(s1, Mem(FieldAt(e, at, 2)), b.addr);
    assert FieldAt(e, at, 2) / 4 in FieldCells(e, at);
    assert c.T() / 4 in c.Cells() && c.F() / 4 in c.Cells() && c.a / 4 in c.Cells() && c.b / 4 in c.Cells();
    assert Val(s2, b) == Val(s1, b);
    u := Put(s2, Mem(c.b), Val(s2, b));
  }

  lemma UnpackLoaded(e: Enc, r: Regs, c: Cw, at: int, s: State, u: State)
    requires Loaded(r, s) && CwOk(r, c) && TextApart(e, r, c, at) && Same(s, u, c.Cells() + FieldCells(e, at))
    ensures Loaded(r, u)
  {
    forall v | v in r.env.lits ensures Val(u, r.Lit(v)) == v { assert r.env.Pool(r.env.lits[v] / 4); }
  }

  /** The cells' word indices, all different. */
  lemma CwIndices(r: Regs, c: Cw)
    requires CwOk(r, c)
    ensures c.a % 4 == 0 && c.b % 4 == 0 && c.d % 4 == 0 && c.pb % 4 == 0
    ensures c.T() / 4 == c.pb / 4 + 1 && c.F() / 4 == c.pb / 4 + 2 && c.Pa() / 4 == c.pb / 4 + 3
    ensures c.a / 4 != c.b / 4 && !(c.pb / 4 <= c.a / 4 <= c.pb / 4 + 3) && !(c.pb / 4 <= c.b / 4 <= c.pb / 4 + 3)
  {
    assert !(c.pb / 4 <= c.a / 4 <= c.pb / 4 + 3);
  }

  /** The descriptor's words land on the contiguous cells. */
  lemma DescCopied(e: Enc, s: State, r: Regs, c: Cw, two: bool, d: Word, a: Loc, b: Loc, t: Word, f: Word)
    returns (s1: State)
    requires CwOk(r, c) && Operand(r, c, a) && (two ==> Operand(r, c, b)) && DescAt(s, r, c, two, d, a, b, t, f)
    ensures c.pb % 4 == 0
    ensures s1 == Burst(s, Mem(d), Mem(if two then c.pb else c.T()), CopyMode(e), CopyCount(e, if two then 4 else 3))
    ensures Val(s1, Mem(c.Pa())) == a.addr && Val(s1, Mem(c.T())) == t && Val(s1, Mem(c.F())) == f
    ensures two ==> Val(s1, Mem(c.pb)) == b.addr
    ensures Val(s1, a) == Val(s, a) && (two ==> Val(s1, b) == Val(s, b)) && Same(s, s1, c.Cells())
  {
    var to, n := if two then c.pb else c.T(), if two then 4 else 3;
    CwIndices(r, c);
    DescApart(s, r, c, two, d, a, b, t, f);
    hide Burst, CopyMode, CopyCount, CwOk, Copied, DescAt, Operand;
    WordCopyMeans(e, s, d, to, n);
    s1 := Burst(s, Mem(d), Mem(to), CopyMode(e), CopyCount(e, n));
    DescLands(s, s1, r, c, two, d, a, b, t, f);
  }

  lemma DescLands(s: State, s1: State, r: Regs, c: Cw, two: bool, d: Word, a: Loc, b: Loc, t: Word, f: Word)
    requires CwOk(r, c) && Operand(r, c, a) && (two ==> Operand(r, c, b)) && DescAt(s, r, c, two, d, a, b, t, f)
    requires Copied(s, s1, d / 4, (if two then c.pb else c.T()) / 4, if two then 4 else 3)
    ensures Val(s1, Mem(c.Pa())) == a.addr && Val(s1, Mem(c.T())) == t && Val(s1, Mem(c.F())) == f
    ensures two ==> Val(s1, Mem(c.pb)) == b.addr
    ensures Val(s1, a) == Val(s, a) && (two ==> Val(s1, b) == Val(s, b)) && Same(s, s1, c.Cells())
  {
    CwIndices(r, c);
    DescApart(s, r, c, two, d, a, b, t, f);
    hide CwOk;
    var p := c.pb / 4;
    var j := (if two then c.pb else c.T()) / 4;
    assert j <= p + 1 && p + 3 < j + (if two then 4 else 3);
  }

  /** The descriptor and the cells it lands on do not overlap. */
  lemma DescApart(s: State, r: Regs, c: Cw, two: bool, d: Word, a: Loc, b: Loc, t: Word, f: Word)
    requires CwOk(r, c) && DescAt(s, r, c, two, d, a, b, t, f)
    ensures var j, n := (if two then c.pb else c.T()) / 4, if two then 4 else 3; d / 4 + n <= j || j + n <= d / 4
    ensures var j, n := (if two then c.pb else c.T()) / 4, if two then 4 else 3;
              forall k :: k !in c.Cells() ==> !(j <= k < j + n)
  {
    CwIndices(r, c);
    hide CwOk;
    var j, n := (if two then c.pb else c.T()) / 4, if two then 4 else 3;
    assert forall k :: j <= k < j + n ==> k in c.Cells();
    DisjointRuns(d / 4, j, n, c.Cells());
  }

  lemma DisjointRuns(i: int, j: int, n: nat, w: set<int>)
    requires n > 0 && (forall k :: j <= k < j + n ==> k in w) && forall k :: i <= k < i + n ==> k !in w
    ensures i + n <= j || j + n <= i
  {
    if i <= j { assert j < i + n ==> j !in w; } else { assert i < j + n ==> i in w; }
  }

  /** Park the descriptor's address and jump to the unpack sequence. */
  function ParkCode(r: Regs, c: Cw, d: Word, at: Word): seq<Block>
    requires d in r.env.lits && at in r.env.lits
  {
    [Pl(r.Lit(d), Mem(c.d))] + [Pl(r.Lit(at), Pc)]
  }

  lemma {:induction false} ParkMeans(s: State, r: Regs, c: Cw, d: Word, at: Word)
    requires Loaded(r, s) && CwOk(r, c) && d in r.env.lits && at in r.env.lits
    ensures AllOk(ParkCode(r, c, d, at)) && c.d % 4 == 0
    ensures RunBlocks(s, ParkCode(r, c, d, at)) == Jump(Put(s, Mem(c.d), d).(pc := at))
  {
    hide RunBlocks, ExecBlock;
    LitOperand(r, c, d);
    CopyExec(s, r.Lit(d), Mem(c.d));
    Run1(s, Pl(r.Lit(d), Mem(c.d)));
    var s1 := Put(s, Mem(c.d), d);
    LitCell(r, c, s, s1, at);
    ThenJump(s, [Pl(r.Lit(d), Mem(c.d))], s1, r.Lit(at));
  }

  /** The descriptor form: one run from the site, through the unpack sequence that patches itself
      and the helper behind it, to the label the predicate selects. */
  lemma {:induction false} DescriptorLeads(text: Text, e: Enc, s: State, r: Regs, c: Cw, h: Helper, m: Loc2, d: Word,
                                           at: Word,
                                           a: Loc, b: Loc, t: Word, f: Word)
    requires Loaded(r, s) && CwOk(r, c) && HelperAt(text, r, c, h, m) && TextApart(e, r, c, at) && m.entry in r.env.lits
    requires Described(e, r, c, at, a) && (!OneOperand(h) ==> Described(e, r, c, at, b))
    requires d in r.env.lits && at in r.env.lits && DescAt(s, r, c, !OneOperand(h), d, a, b, t, f)
    requires DescClear(e, at, !OneOperand(h), d)
    requires at in text && text[at] == UnpackCode(e, r, c, !OneOperand(h), at, m.entry)
    requires a.Mem? && b.Mem? && Cell(b) && InRange(h, Val(s, a), Val(s, b))
    ensures Leads(text, s, Fixed(ParkCode(r, c, d, at)), if Holds(h, Val(s, a), Val(s, b)) then t else f, 4)
  {
    hide RunBlocks, RunCode, Holds, InRange, HelperAt, UnpackCode, DescAt, ParkCode;
    var two := !OneOperand(h);
    ParkMeans(s, r, c, d, at);
    var s1 := Put(s, Mem(c.d), d).(pc := at);
    CwLoaded(r, c, s, s1);
    DescKept(s, s1, r, c, two, d, a, b, t, f);
    var u := UnpackRuns(e, s1, r, c, two, at, m.entry, d, a, b, t, f);
    if OneOperand(h) { OneOperandOnly(h, Val(s, a), Val(s, b), Val(u, Mem(c.b))); }
    HelperReaches(text, u, r, c, h, m);
    var goal := if Holds(h, Val(s, a), Val(s, b)) then t else f;
    assert Reaches(text, s1, goal, 4);
    BlocksLead(text, s, ParkCode(r, c, d, at), s1, goal, 4);
  }

  lemma DescKept(s: State, u: State, r: Regs, c: Cw, two: bool, d: int, a: Loc, b: Loc, t: Word, f: Word)
    requires DescAt(s, r, c, two, d, a, b, t, f) && Same(s, u, c.Cells())
    ensures DescAt(u, r, c, two, d, a, b, t, f)
  {
  }

  // ----- choosing the helper -----

  datatype Pred = PEq | PNe | Slt | Sge | Sgt | Sle | Ult | Uge | Ugt | Ule {
    predicate IsSigned() { Slt? || Sge? || Sgt? || Sle? }
  }

  /** The icmp predicate on w-bit values. */
  predicate Icmp(p: Pred, w: int, x: nat, y: nat)
    requires 1 <= w <= 32
  {
    var a, b := DivConst.SignedAt(x, w), DivConst.SignedAt(y, w);
    match p
    case PEq => x == y
    case PNe => x != y
    case Slt => a < b
    case Sge => a >= b
    case Sgt => a > b
    case Sle => a <= b
    case Ult => x < y
    case Uge => x >= y
    case Ugt => x > y
    case Ule => x <= y
  }

  /** A site as it is emitted: the helper, whether the operands and the targets trade places. */
  datatype Site = Site(h: Helper, swapOps: bool, swapTargets: bool)

  /** The lowering's choice. zeroX and zeroY say which operand is the constant zero, nonneg that
      both operands are proved nonnegative at this block. */
  function Choose(p: Pred, w: int, zeroX: bool, zeroY: bool, nonnegX: bool, nonnegY: bool): Site {
    var narrow := p.IsSigned() && w < 32;
    var nx, ny := nonnegX && !narrow, nonnegY && !narrow;
    if (p == PEq || p == PNe) && (zeroX || zeroY) then
      Site(if (if zeroX then ny else nx) then Eqzp else Eqz, zeroX, p == PNe)
    else
      var lt, ltu := if nx && ny then Ltp else Lt, if nx && ny then Ltp else Ltu;
      match p
      case PEq => Site(Eq, false, false)
      case PNe => Site(Eq, false, true)
      case Slt => Site(lt, false, false)
      case Sge => Site(lt, false, true)
      case Sgt => Site(lt, true, false)
      case Sle => Site(lt, true, true)
      case Ult => Site(ltu, false, false)
      case Uge => Site(ltu, false, true)
      case Ugt => Site(ltu, true, false)
      case Ule => Site(ltu, true, true)
  }

  /** The operand word a site compares: a narrow signed operand is sign-extended first. */
  function OperandWord(p: Pred, w: int, x: Word): Word
    requires 1 <= w <= 32
  {
    if p.IsSigned() && w < 32 then Wrap(DivConst.SignedAt(x, w)) else x
  }

  /** Whatever helper is chosen, it is in range and, with the chosen order of operands and
      targets, selects the label of the icmp predicate. */
  lemma ChooseExact(p: Pred, w: int, x: Word, y: Word, zeroX: bool, zeroY: bool, nonnegX: bool, nonnegY: bool)
    requires 1 <= w <= 32 && x < Pow2(w) && y < Pow2(w)
    requires (zeroX ==> x == 0) && (zeroY ==> y == 0) && (nonnegX ==> !Neg(x)) && (nonnegY ==> !Neg(y))
    ensures var st := Choose(p, w, zeroX, zeroY, nonnegX, nonnegY);
            var u, v := OperandWord(p, w, x), OperandWord(p, w, y);
            var a, b := if st.swapOps then v else u, if st.swapOps then u else v;
            InRange(st.h, a, b) && (Holds(st.h, a, b) != st.swapTargets <==> Icmp(p, w, x, y))
  {
    hide Pow2, DivConst.SignedAt, Signed, Neg, Wrap;
    var narrow := p.IsSigned() && w < 32;
    var nx, ny := nonnegX && !narrow, nonnegY && !narrow;
    var u, v := OperandWord(p, w, x), OperandWord(p, w, y);
    SignedOperand(p, w, x); SignedOperand(p, w, y);
    if nx { NonnegWord(u); }
    if ny { NonnegWord(v); }
    if p == PEq || p == PNe {
      assert u == x && v == y;
    } else if p.IsSigned() {
    } else {
      assert u == x && v == y;
    }
  }

  lemma SignedOperand(p: Pred, w: int, x: Word)
    requires 1 <= w <= 32 && x < Pow2(w)
    ensures p.IsSigned() ==> Signed(OperandWord(p, w, x)) == DivConst.SignedAt(x, w)
  {
    DivConst.SextSigned(x, w);
    if w == 32 { DivConst.SignedIs(x); }
  }

  lemma NonnegWord(u: Word)
    requires !Neg(u)
    ensures Signed(u) == u && 0 <= u < M31
  {
  }
}
