/** Value and block bounds of one function (host/dmacc/facts.go): branch narrowing, re-derivation
    on edges, inheritance down the dominator tree, and that every iterate is sound for every
    execution. */
module Narrowing {
  import opened Words
  import opened Cfg
  import opened Bounds
  import opened Executions

  type Caps = map<int, Word>

  function Cap(m: Caps, n: int): Word {
    if n in m then m[n] else TOP
  }

  /** Per-value bounds, and per-block bounds proved by dominating branches. */
  datatype FactSet = FactSet(max: Caps, blk: seq<Caps>)

  function BoundAt(fs: FactSet, b: int, v: Val): Word {
    match v
    case Const(_, _) => ConstWord(v)
    case Local(n, ty) => Min(Min(TypeMax(ty), Cap(fs.max, n)), if 0 <= b < |fs.blk| then Cap(fs.blk[b], n) else TOP)
    case Global(_, _) => TOP
  }

  // ----- what a branch proves -----

  const CONDDEPTH: nat := 4
  const EDGEDEPTH: nat := 3

  function PutBound(m: Caps, v: Val, b: Word): Caps {
    if v.Local? && b < TOP && b < Cap(m, v.n) then m[v.n := b] else m
  }

  predicate IsTrue(v: Val) {
    v.Const? && v.w % 2 == 1
  }

  predicate IsFalse(v: Val) {
    v.Const? && v.w == 0
  }

  /** What "cond is true" (or false) proves about the values it compares, through the i1 algebra
      of short-circuit conditions. */
  function CondBounds(f: Func, fs: FactSet, m: Caps, cond: Val, taken: bool, at: int, depth: nat): Caps
    decreases depth
  {
    if depth == 0 || !cond.Local? || !DefinedBy(f, cond.n) || |DefOf(f, cond.n).args| < Arity(DefOf(f, cond.n).op) then
      m
    else
      var d := DefOf(f, cond.n);
      match d.op
      case Icmp(p) =>
        if !Word32(d.ty) then m
        else
          var x, y := d.args[0], d.args[1];
          var r := EdgeBounds(if taken then p else NegPred(p), x, y, BoundAt(fs, at, x), BoundAt(fs, at, y));
          PutBound(PutBound(m, x, r.0), y, r.1)
      case Select =>
        if taken && IsFalse(d.args[2]) then
          CondBounds(f, fs, CondBounds(f, fs, m, d.args[0], true, at, depth - 1), d.args[1], true, at, depth - 1)
        else if !taken && IsTrue(d.args[1]) then
          CondBounds(f, fs, CondBounds(f, fs, m, d.args[0], false, at, depth - 1), d.args[2], false, at, depth - 1)
        else m
      case And =>
        if taken then
          CondBounds(f, fs, CondBounds(f, fs, m, d.args[0], true, at, depth - 1), d.args[1], true, at, depth - 1)
        else m
      case Or =>
        if !taken then
          CondBounds(f, fs, CondBounds(f, fs, m, d.args[0], false, at, depth - 1), d.args[1], false, at, depth - 1)
        else m
      case Xor =>
        if IsTrue(d.args[1]) then CondBounds(f, fs, m, d.args[0], !taken, at, depth - 1)
        else if IsTrue(d.args[0]) then CondBounds(f, fs, m, d.args[1], !taken, at, depth - 1)
        else m
      case Zext => CondBounds(f, fs, m, d.args[0], taken, at, depth - 1)
      case _ => m
  }

  /** The largest case constant that leads to h. */
  function CaseMax(cases: seq<(Word, int)>, k: nat, h: int): Word
    requires k <= |cases|
    decreases k
  {
    if k == 0 then 0
    else
      var m := CaseMax(cases, k - 1, h);
      if cases[k - 1].1 == h then Max(m, cases[k - 1].0) else m
  }

  predicate HasCase(cases: seq<(Word, int)>, h: int) {
    exists i :: 0 <= i < |cases| && cases[i].1 == h
  }

  /** What taking the edge from p to h proves. */
  function EdgeNarrow(f: Func, fs: FactSet, p: int, h: int): Caps {
    if !IsBlock(f, p) then map[]
    else
      match f.blocks[p].term
      case Br(c, yes, no) => if yes != no then CondBounds(f, fs, map[], c, yes == h, p, CONDDEPTH) else map[]
      case Switch(v, deflt, cases) =>
          if deflt != h && HasCase(cases, h) then PutBound(map[], v, CaseMax(cases, |cases|, h)) else map[]
      case _ => map[]
  }

  // ----- how much it proves -----

  /** The condition's truth value settles that p holds of x and y, through at most depth steps of
      and, or, not, widening and short-circuit select. */
  predicate Settles(f: Func, cond: Val, taken: bool, p: Pred, x: Val, y: Val, depth: nat)
    decreases depth, 0
  {
    depth > 0 && cond.Local? && DefinedBy(f, cond.n) && |DefOf(f, cond.n).args| >= Arity(DefOf(f, cond.n).op)
    && var d := DefOf(f, cond.n);
       match d.op
       case Icmp(q) => Word32(d.ty) && p == (if taken then q else NegPred(q)) && x == d.args[0] && y == d.args[1]
       case And => taken && Either(f, d.args[0], d.args[1], true, p, x, y, depth - 1)
       case Or => !taken && Either(f, d.args[0], d.args[1], false, p, x, y, depth - 1)
       case Select =>
         || (taken && IsFalse(d.args[2]) && Either(f, d.args[0], d.args[1], true, p, x, y, depth - 1))
         || (!taken && IsTrue(d.args[1]) && Either(f, d.args[0], d.args[2], false, p, x, y, depth - 1))
       case Xor =>
         || (IsTrue(d.args[1]) && Settles(f, d.args[0], !taken, p, x, y, depth - 1))
         || (IsTrue(d.args[0]) && !IsTrue(d.args[1]) && Settles(f, d.args[1], !taken, p, x, y, depth - 1))
       case Zext => Settles(f, d.args[0], taken, p, x, y, depth - 1)
       case _ => false
  }

  predicate Either(f: Func, a: Val, b: Val, taken: bool, p: Pred, x: Val, y: Val, depth: nat)
    decreases depth, 1
  {
    Settles(f, a, taken, p, x, y, depth) || Settles(f, b, taken, p, x, y, depth)
  }

  lemma {:induction false} CondTightens(f: Func, fs: FactSet, m: Caps, cond: Val, taken: bool, at: int, depth: nat,
                                        n: int)
    ensures Cap(CondBounds(f, fs, m, cond, taken, at, depth), n) <= Cap(m, n)
    decreases depth
  {
    hide BoundAt;
    if depth > 0 && cond.Local? && DefinedBy(f, cond.n) && |DefOf(f, cond.n).args| >= Arity(DefOf(f, cond.n).op) {
      var k := depth - 1;
      forall c, b, m' ensures Cap(CondBounds(f, fs, m', c, b, at, k), n) <= Cap(m', n) {
        CondTightens(f, fs, m', c, b, at, k, n);
      }
    }
  }

  /** x and y are bounded by at least what the comparison proves. */
  predicate Bounded(fs: FactSet, m: Caps, p: Pred, x: Val, y: Val, at: int) {
    var r := EdgeBounds(p, x, y, BoundAt(fs, at, x), BoundAt(fs, at, y));
    (x.Local? ==> Cap(m, x.n) <= r.0) && (y.Local? ==> Cap(m, y.n) <= r.1)
  }

  lemma {:induction false} BoundedStays(f: Func, fs: FactSet, m: Caps, p: Pred, x: Val, y: Val, at: int, cond: Val,
                                        taken: bool, depth: nat)
    requires Bounded(fs, m, p, x, y, at)
    ensures Bounded(fs, CondBounds(f, fs, m, cond, taken, at, depth), p, x, y, at)
  {
    hide BoundAt, EdgeBounds, CondBounds;
    if x.Local? { CondTightens(f, fs, m, cond, taken, at, depth, x.n); }
    if y.Local? { CondTightens(f, fs, m, cond, taken, at, depth, y.n); }
  }

  /** Both operands of a connective, one after the other. */
  function Both(f: Func, fs: FactSet, m: Caps, a: Val, b: Val, taken: bool, at: int, depth: nat): Caps {
    CondBounds(f, fs, CondBounds(f, fs, m, a, taken, at, depth), b, taken, at, depth)
  }

  /** A condition that is a comparison, or goes on to one or two others. */
  predicate Opens(f: Func, cond: Val, depth: nat) {
    depth > 0 && cond.Local? && DefinedBy(f, cond.n) && |DefOf(f, cond.n).args| >= Arity(DefOf(f, cond.n).op)
  }

  lemma {:induction false} PairOpens(f: Func, fs: FactSet, m: Caps, cond: Val, taken: bool, at: int, depth: nat)
    requires Opens(f, cond, depth)
    ensures var d, c := DefOf(f, cond.n), CondBounds(f, fs, m, cond, taken, at, depth);
            && (d.op.And? && taken ==> c == Both(f, fs, m, d.args[0], d.args[1], true, at, depth - 1))
            && (d.op.Or? && !taken ==> c == Both(f, fs, m, d.args[0], d.args[1], false, at, depth - 1))
            && (d.op.Select? && taken && IsFalse(d.args[2]) ==>
                  c == Both(f, fs, m, d.args[0], d.args[1], true, at, depth - 1))
            && (d.op.Select? && !taken && IsTrue(d.args[1]) ==>
                  c == Both(f, fs, m, d.args[0], d.args[2], false, at, depth - 1))
  {
  }

  lemma {:induction false} OneOpens(f: Func, fs: FactSet, m: Caps, cond: Val, taken: bool, at: int, depth: nat)
    requires Opens(f, cond, depth)
    ensures var d, c := DefOf(f, cond.n), CondBounds(f, fs, m, cond, taken, at, depth);
            && (d.op.Xor? && IsTrue(d.args[1]) ==> c == CondBounds(f, fs, m, d.args[0], !taken, at, depth - 1))
            && (d.op.Xor? && IsTrue(d.args[0]) && !IsTrue(d.args[1]) ==>
                  c == CondBounds(f, fs, m, d.args[1], !taken, at, depth - 1))
            && (d.op.Zext? ==> c == CondBounds(f, fs, m, d.args[0], taken, at, depth - 1))
  {
  }

  lemma {:induction false} CompareBounds(f: Func, fs: FactSet, m: Caps, cond: Val, taken: bool, p: Pred, x: Val, y: Val,
                                         at: int, depth: nat)
    requires Settles(f, cond, taken, p, x, y, depth) && DefOf(f, cond.n).op.Icmp?
    ensures Bounded(fs, CondBounds(f, fs, m, cond, taken, at, depth), p, x, y, at)
  {
    hide BoundAt, EdgeBounds;
  }

  /** Every comparison a condition's truth value settles bounds its operands. */
  lemma {:induction false} CondExact(f: Func, fs: FactSet, m: Caps, cond: Val, taken: bool, p: Pred, x: Val, y: Val,
                                     at: int, depth: nat)
    requires Settles(f, cond, taken, p, x, y, depth)
    ensures Bounded(fs, CondBounds(f, fs, m, cond, taken, at, depth), p, x, y, at)
    decreases depth, 0
  {
    SettlesOpens(f, cond, taken, p, x, y, depth);
    var d := DefOf(f, cond.n);
    if d.op.Icmp? {
      CompareBounds(f, fs, m, cond, taken, p, x, y, at, depth);
    } else if d.op.And? || d.op.Or? || d.op.Select? {
      hide Bounded, CondBounds, Settles, DefinedBy, DefOf, Both;
      PairOpens(f, fs, m, cond, taken, at, depth);
      SettlesPair(f, cond, taken, p, x, y, depth);
      var b := if d.op.Select? && !taken then d.args[2] else d.args[1];
      EitherExact(f, fs, m, d.args[0], b, taken, p, x, y, at, depth - 1);
    } else {
      hide Bounded, CondBounds, Settles, DefinedBy, DefOf;
      OneOpens(f, fs, m, cond, taken, at, depth);
      SettlesOne(f, cond, taken, p, x, y, depth);
      var c := d.args[if d.op.Xor? && !IsTrue(d.args[1]) then 1 else 0];
      CondExact(f, fs, m, c, taken != d.op.Xor?, p, x, y, at, depth - 1);
    }
  }

  lemma {:induction false} SettlesOpens(f: Func, cond: Val, taken: bool, p: Pred, x: Val, y: Val, depth: nat)
    requires Settles(f, cond, taken, p, x, y, depth)
    ensures Opens(f, cond, depth)
    ensures var op := DefOf(f, cond.n).op; op.Icmp? || op.And? || op.Or? || op.Select? || op.Xor? || op.Zext?
  {
  }

  lemma {:induction false} SettlesPair(f: Func, cond: Val, taken: bool, p: Pred, x: Val, y: Val, depth: nat)
    requires Settles(f, cond, taken, p, x, y, depth) && Opens(f, cond, depth)
    ensures var d := DefOf(f, cond.n);
            && (d.op.And? ==> taken && Either(f, d.args[0], d.args[1], true, p, x, y, depth - 1))
            && (d.op.Or? ==> !taken && Either(f, d.args[0], d.args[1], false, p, x, y, depth - 1))
            && (d.op.Select? && taken ==>
                  IsFalse(d.args[2]) && Either(f, d.args[0], d.args[1], true, p, x, y, depth - 1))
            && (d.op.Select? && !taken ==>
                  IsTrue(d.args[1]) && Either(f, d.args[0], d.args[2], false, p, x, y, depth - 1))
  {
    hide Either;
  }

  lemma {:induction false} SettlesOne(f: Func, cond: Val, taken: bool, p: Pred, x: Val, y: Val, depth: nat)
    requires Settles(f, cond, taken, p, x, y, depth) && Opens(f, cond, depth)
    ensures var d := DefOf(f, cond.n);
            && (d.op.Xor? ==>
                  (IsTrue(d.args[1]) && Settles(f, d.args[0], !taken, p, x, y, depth - 1))
                  || (IsTrue(d.args[0]) && !IsTrue(d.args[1]) && Settles(f, d.args[1], !taken, p, x, y, depth - 1)))
            && (d.op.Zext? ==> Settles(f, d.args[0], taken, p, x, y, depth - 1))
  {
    hide Either;
  }

  lemma {:induction false} EitherExact(f: Func, fs: FactSet, m: Caps, a: Val, b: Val, taken: bool, p: Pred, x: Val,
                                       y: Val, at: int, depth: nat)
    requires Either(f, a, b, taken, p, x, y, depth)
    ensures Bounded(fs, Both(f, fs, m, a, b, taken, at, depth), p, x, y, at)
    decreases depth, 1
  {
    hide Bounded, CondBounds, Settles;
    var m1 := CondBounds(f, fs, m, a, taken, at, depth);
    if Settles(f, b, taken, p, x, y, depth) {
      CondExact(f, fs, m1, b, taken, p, x, y, at, depth);
    } else {
      CondExact(f, fs, m, a, taken, p, x, y, at, depth);
      BoundedStays(f, fs, m1, p, x, y, at, b, taken, depth);
    }
  }

  /** An edge proves what its branch's condition settles within four steps, and a switch edge that
      the value is at most the largest constant that leads there. */
  lemma {:induction false} EdgeExact(f: Func, fs: FactSet, b: int, h: int, p: Pred, x: Val, y: Val, k: Word)
    requires IsBlock(f, b)
    ensures var t, m := f.blocks[b].term, EdgeNarrow(f, fs, b, h);
            && (t.Br? && t.yes != t.no && Settles(f, t.cond, t.yes == h, p, x, y, 4) ==> Bounded(fs, m, p, x, y, b))
            && (t.Switch? && t.v.Local? && t.deflt != h && (exists i :: 0 <= i < |t.cases| && t.cases[i].1 == h)
                && (forall i :: 0 <= i < |t.cases| && t.cases[i].1 == h ==> t.cases[i].0 <= k) ==>
                  Cap(m, t.v.n) <= k)
  {
    hide BoundAt, Bounded;
    var t := f.blocks[b].term;
    if t.Br? && t.yes != t.no && Settles(f, t.cond, t.yes == h, p, x, y, 4) {
      CondExact(f, fs, map[], t.cond, t.yes == h, p, x, y, b, 4);
    } else if t.Switch? && forall i :: 0 <= i < |t.cases| && t.cases[i].1 == h ==> t.cases[i].0 <= k {
      CasesUnder(t.cases, |t.cases|, h, k);
    }
  }

  lemma {:induction false} CasesUnder(cases: seq<(Word, int)>, n: nat, h: int, k: Word)
    requires n <= |cases| && forall i :: 0 <= i < |cases| && cases[i].1 == h ==> cases[i].0 <= k
    ensures CaseMax(cases, n, h) <= k
    decreases n
  {
    if n > 0 { CasesUnder(cases, n - 1, h, k); }
  }

  // ----- soundness on an execution -----

  /** Bounds that hold at visit t, on values that reach its block. */
  ghost predicate Narrowed(f: Func, e: Exec, t: int, m: Caps) {
    Visit(e, t) && forall n :: n in m ==> Visible(f, e, t, n) && Get(e.envs[t], n) <= m[n]
  }

  /** Every visible value is within its value bound, and every block bound is about a value visible
      in the block and holds there. */
  ghost predicate SoundOn(f: Func, fs: FactSet, e: Exec) {
    && (forall t, n :: Visible(f, e, t, n) ==> Get(e.envs[t], n) <= Cap(fs.max, n))
    && (forall t :: Visit(e, t) && 0 <= e.path[t] < |fs.blk| ==> Narrowed(f, e, t, fs.blk[e.path[t]]))
  }

  lemma {:induction false} BoundSound(f: Func, fs: FactSet, e: Exec, t: int, v: Val, w: Word)
    requires Ok(f) && Proper(f, e) && SoundOn(f, fs, e) && Visit(e, t) && Evals(e.envs[t], v, w)
    requires v.Local? ==> Visible(f, e, t, v.n) && v.n in f.types && f.types[v.n] == v.ty
    ensures w <= BoundAt(fs, e.path[t], v)
  {
    hide Ok, ExecOk;
    if v.Local? { StoredAt(f, e, t, v.n); }
  }

  lemma {:induction false} PutSound(f: Func, e: Exec, t: int, m: Caps, v: Val, b: Word)
    requires Narrowed(f, e, t, m) && (v.Local? ==> Visible(f, e, t, v.n) && Get(e.envs[t], v.n) <= b)
    ensures Narrowed(f, e, t, PutBound(m, v, b))
  {
  }

  /** A condition with this truth value at visit t. */
  ghost predicate CondIs(f: Func, e: Exec, t: int, cond: Val, taken: bool) {
    match cond
    case Const(_, _) => (ConstWord(cond) != 0) == taken
    case Local(n, ty) =>
        Visible(f, e, t, n) && n in f.types && f.types[n] == ty && ty == Int(1) && (Get(e.envs[t], n) != 0) == taken
    case Global(_, _) => true
  }

  lemma XorOne(a: Word)
    requires a <= 1
    ensures XorW(a, 1) == 1 - a && XorW(1, a) == 1 - a
  {
    assert Words.Xor(0, 1) == 1 && Words.Xor(1, 1) == 0 && Words.Xor(1, 0) == 1;
  }

  lemma OddConst(v: Val)
    requires IsTrue(v) && v.ty == Int(1)
    ensures ConstWord(v) == 1
  {
    assert Pow2(1) == 2;
  }

  /** A visible operand has the truth value its word says. */
  lemma {:induction false} OperandIs(f: Func, e: Exec, t: int, n: int, k: int, w: Word, taken: bool)
    requires Ok(f) && Proper(f, e) && Visible(f, e, t, n) && DefinedBy(f, n) && 0 <= k < |DefOf(f, n).args|
    requires BoolArg(DefOf(f, n), k)
    requires Evals(e.envs[t], DefOf(f, n).args[k], w) && (w != 0) == taken
    ensures CondIs(f, e, t, DefOf(f, n).args[k], taken)
  {
    Consistent(f, e, t, n);
    assert ValOk(f, DefOf(f, n).args[k], f.def[n].b, f.def[n].i);
  }

  /** Operands of the comparison a condition names are bounded by it. */
  lemma {:induction false} CompareSound(f: Func, fs: FactSet, e: Exec, t: int, m: Caps, n: int, taken: bool)
    requires Ok(f) && Proper(f, e) && SoundOn(f, fs, e) && Narrowed(f, e, t, m) && Visible(f, e, t, n)
    requires (Get(e.envs[t], n) != 0) == taken
    requires DefinedBy(f, n) && DefOf(f, n).op.Icmp? && Word32(DefOf(f, n).ty) && |DefOf(f, n).args| >= 2
    requires DefOf(f, n).args[0].Const? ==> ConstWord(DefOf(f, n).args[0]) == DefOf(f, n).args[0].w
    requires DefOf(f, n).args[1].Const? ==> ConstWord(DefOf(f, n).args[1]) == DefOf(f, n).args[1].w
    ensures var d := DefOf(f, n);
            var x, y := d.args[0], d.args[1];
            var r := EdgeBounds(if taken then d.op.pred
                else NegPred(d.op.pred), x, y, BoundAt(fs, e.path[t], x), BoundAt(fs, e.path[t], y));
            Narrowed(f, e, t, PutBound(PutBound(m, x, r.0), y, r.1))
  {
    var d := DefOf(f, n);
    var x, y := d.args[0], d.args[1];
    Consistent(f, e, t, n);
    var ws :| EvalsAll(e.envs[t], d.args, ws) && Yields(d, ws, Get(e.envs[t], n));
    assert Evals(e.envs[t], x, ws[0]) && Evals(e.envs[t], y, ws[1]);
    assert ValOk(f, x, f.def[n].b, f.def[n].i) && ValOk(f, y, f.def[n].b, f.def[n].i);
    BoundSound(f, fs, e, t, x, ws[0]);
    BoundSound(f, fs, e, t, y, ws[1]);
    var p := if taken then d.op.pred else NegPred(d.op.pred);
    NegPredHolds(d.op.pred, ws[0], ws[1]);
    var xb, yb := BoundAt(fs, e.path[t], x), BoundAt(fs, e.path[t], y);
    EdgeSound(p, x, y, xb, yb, ws[0], ws[1]);
    PutSound(f, e, t, m, x, EdgeBounds(p, x, y, xb, yb).0);
    PutSound(f, e, t, PutBound(m, x, EdgeBounds(p, x, y, xb, yb).0), y, EdgeBounds(p, x, y, xb, yb).1);
  }

  lemma {:induction false} ConstFull(f: Func, n: int)
    requires Ok(f) && DefinedBy(f, n) && DefOf(f, n).op.Icmp? && Word32(DefOf(f, n).ty)
    ensures forall k :: 0 <= k < |DefOf(f, n).args| && DefOf(f, n).args[k].Const? ==>
                          ConstWord(DefOf(f, n).args[k]) == DefOf(f, n).args[k].w
  {
  }

  /** Both halves of a conjunction taken, or of a disjunction not taken. */
  lemma {:induction false} BothSound(f: Func, fs: FactSet, e: Exec, t: int, m: Caps, n: int, i: int, j: int,
                                     ws: seq<Word>, taken: bool, depth: nat)
    requires Ok(f) && Proper(f, e) && SoundOn(f, fs, e) && Narrowed(f, e, t, m) && Visible(f, e, t, n)
    requires DefinedBy(f, n) && depth > 0
    requires 0 <= i < |DefOf(f, n).args| && 0 <= j < |DefOf(f, n).args| && BoolArg(DefOf(f, n), i)
    requires BoolArg(DefOf(f, n), j)
    requires EvalsAll(e.envs[t], DefOf(f, n).args, ws) && (ws[i] != 0) == taken && (ws[j] != 0) == taken
    ensures var d := DefOf(f, n);
            Narrowed(f, e, t, CondBounds(f, fs, CondBounds(f, fs, m, d.args[i], taken, e.path[t], depth - 1), d.args[j],
                taken, e.path[t], depth - 1))
    decreases depth, 0
  {
    hide CondBounds, Ok, ExecOk, SoundOn, Narrowed;
    var d := DefOf(f, n);
    assert Evals(e.envs[t], d.args[i], ws[i]) && Evals(e.envs[t], d.args[j], ws[j]);
    OperandIs(f, e, t, n, i, ws[i], taken);
    OperandIs(f, e, t, n, j, ws[j], taken);
    CondSound(f, fs, e, t, m, d.args[i], taken, depth - 1);
    CondSound(f, fs, e, t, CondBounds(f, fs, m, d.args[i], taken, e.path[t], depth - 1), d.args[j], taken, depth - 1);
  }

  /** The i1 negation. */
  lemma {:induction false} NotSound(f: Func, fs: FactSet, e: Exec, t: int, m: Caps, n: int, k: int, ws: seq<Word>,
                                    taken: bool, depth: nat)
    requires Ok(f) && Proper(f, e) && SoundOn(f, fs, e) && Narrowed(f, e, t, m) && Visible(f, e, t, n)
    requires DefinedBy(f, n) && depth > 0
    requires DefOf(f, n).op.Xor? && DefOf(f, n).ty == Int(1) && 0 <= k <= 1 && |DefOf(f, n).args| >= 2
    requires IsTrue(DefOf(f, n).args[1 - k])
    requires EvalsAll(e.envs[t], DefOf(f, n).args, ws) && Yields(DefOf(f, n), ws, Get(e.envs[t], n))
    requires (Get(e.envs[t], n) != 0) == taken
    ensures Narrowed(f, e, t, CondBounds(f, fs, m, DefOf(f, n).args[k], !taken, e.path[t], depth - 1))
    decreases depth, 0
  {
    hide CondBounds, SoundOn, Narrowed;
    var d := DefOf(f, n);
    var x := d.args[k];
    assert Evals(e.envs[t], x, ws[k]) && Evals(e.envs[t], d.args[1 - k], ws[1 - k]);
    assert BoolArg(d, 0) && BoolArg(d, 1);
    OddConst(d.args[1 - k]);
    if !x.Global? {
      Consistent(f, e, t, n);
      assert ws[k] <= 1 by {
        if x.Const? {
          BoolConst(x);
        } else {
          assert ValOk(f, x, f.def[n].b, f.def[n].i);
          StoredAt(f, e, t, x.n);
        }
      }
      XorOne(ws[k]);
      OperandIs(f, e, t, n, k, ws[k], !taken);
    }
    CondSound(f, fs, e, t, m, x, !taken, depth - 1);
  }

  lemma BoolConst(v: Val)
    requires v.Const? && v.ty == Int(1)
    ensures ConstWord(v) <= 1
  {
    assert Pow2(1) == 2;
  }

  /** Everything a condition's truth value proves holds where the branch is taken. */
  lemma {:induction false} CondSound(f: Func, fs: FactSet, e: Exec, t: int, m: Caps, cond: Val, taken: bool, depth: nat)
    requires Ok(f) && Proper(f, e) && SoundOn(f, fs, e) && Narrowed(f, e, t, m) && CondIs(f, e, t, cond, taken)
    ensures Narrowed(f, e, t, CondBounds(f, fs, m, cond, taken, e.path[t], depth))
    decreases depth, 2
  {
    hide Ok, ExecOk, SoundOn, Narrowed, InsHolds;
    if depth > 0 && cond.Local? && DefinedBy(f, cond.n) {
      var n := cond.n;
      var d := DefOf(f, n);
      var ws := WordsOf(f, e, t, n);
      match d.op
      case Icmp(_) => if Word32(d.ty) { ConstFull(f, n); CompareSound(f, fs, e, t, m, n, taken); }
      case And =>
        var a: Word, b: Word := ws[0], ws[1];
        AndLess(a, b);
        if taken { BothSound(f, fs, e, t, m, n, 0, 1, ws, true, depth); }
      case Or =>
        var a: Word, b: Word := ws[0], ws[1];
        OrAbove(a, b);
        if !taken { BothSound(f, fs, e, t, m, n, 0, 1, ws, false, depth); }
      case Select => SelectSound(f, fs, e, t, m, n, ws, taken, depth);
      case Xor =>
        if IsTrue(d.args[1]) {
          NotSound(f, fs, e, t, m, n, 0, ws, taken, depth);
        } else if IsTrue(d.args[0]) {
          NotSound(f, fs, e, t, m, n, 1, ws, taken, depth);
        }
      case Zext =>
        OperandIs(f, e, t, n, 0, ws[0], taken);
        CondSound(f, fs, e, t, m, d.args[0], taken, depth - 1);
      case _ =>
    }
  }

  /** The operand words a visible i1 value was computed from. */
  lemma {:induction false} WordsOf(f: Func, e: Exec, t: int, n: int) returns (ws: seq<Word>)
    requires Ok(f) && Proper(f, e) && Visible(f, e, t, n) && DefinedBy(f, n) && n in f.types && f.types[n] == Int(1)
    ensures |DefOf(f, n).args| >= Arity(DefOf(f, n).op) && EvalsAll(e.envs[t], DefOf(f, n).args, ws)
    ensures Yields(DefOf(f, n), ws, Get(e.envs[t], n))
    ensures DefOf(f, n).op.Icmp? || DefOf(f, n).op.Address? || DefOf(f, n).ty == Int(1)
  {
    Consistent(f, e, t, n);
    ws :| EvalsAll(e.envs[t], DefOf(f, n).args, ws) && Yields(DefOf(f, n), ws, Get(e.envs[t], n));
  }

  /** Short-circuit and: taken proves both halves; short-circuit or: not taken refutes both. */
  lemma {:induction false} SelectSound(f: Func, fs: FactSet, e: Exec, t: int, m: Caps, n: int, ws: seq<Word>,
                                       taken: bool, depth: nat)
    requires Ok(f) && Proper(f, e) && SoundOn(f, fs, e) && Narrowed(f, e, t, m)
    requires CondIs(f, e, t, Local(n, Int(1)), taken) && DefinedBy(f, n) && depth > 0
    requires DefOf(f, n).op.Select? && |DefOf(f, n).args| >= 3 && EvalsAll(e.envs[t], DefOf(f, n).args, ws)
    requires Yields(DefOf(f, n), ws, Get(e.envs[t], n))
    ensures Narrowed(f, e, t, CondBounds(f, fs, m, Local(n, Int(1)), taken, e.path[t], depth))
    decreases depth, 1
  {
    var d := DefOf(f, n);
    assert Evals(e.envs[t], d.args[1], ws[1]) && Evals(e.envs[t], d.args[2], ws[2]);
    if taken && IsFalse(d.args[2]) {
      BothSound(f, fs, e, t, m, n, 0, 1, ws, true, depth);
    } else if !taken && IsTrue(d.args[1]) {
      OddConst(d.args[1]);
      BothSound(f, fs, e, t, m, n, 0, 2, ws, false, depth);
    }
  }

  // ----- edges -----

  lemma {:induction false} TermValVisible(f: Func, e: Exec, t: int, v: Val)
    requires Ok(f) && Proper(f, e) && Visit(e, t) && Completed(e, t, |f.blocks[e.path[t]].body| - 1) && v.Local?
    requires ValOk(f, v, e.path[t], |f.blocks[e.path[t]].body|)
    ensures Visible(f, e, t, v.n) && v.n in f.types && f.types[v.n] == v.ty
  {
  }

  lemma {:induction false} CaseMaxAbove(cases: seq<(Word, int)>, k: nat, h: int, i: int)
    requires k <= |cases| && 0 <= i < k && cases[i].1 == h
    ensures cases[i].0 <= CaseMax(cases, k, h)
    decreases k
  {
    if i < k - 1 { CaseMaxAbove(cases, k - 1, h, i); }
  }

  /** A case edge pins the switched value to its constant. */
  lemma {:induction false} CaseTaken(f: Func, e: Exec, t: int) returns (i: int)
    requires Ok(f) && Proper(f, e) && Visit(e, t) && t < |e.path| - 1 && f.blocks[e.path[t]].term.Switch?
    requires f.blocks[e.path[t]].term.v.Local? && e.path[t + 1] != f.blocks[e.path[t]].term.deflt
    ensures var term := f.blocks[e.path[t]].term;
            0 <= i < |term.cases| && term.cases[i].1 == e.path[t + 1] && Get(e.envs[t], term.v.n) <= term.cases[i].0
  {
    hide Ok, Carries, PhisHold, BodiesHold, Given;
    var term := f.blocks[e.path[t]].term;
    assert Leaves(term, e.envs[t], e.path[t + 1]);
    var k :| CaseHit(e.envs[t], term.v, term.cases, k) && e.path[t + 1] == term.cases[k].1;
    i := k;
  }

  lemma {:induction false} SwitchSound(f: Func, fs: FactSet, e: Exec, t: int)
    requires Ok(f) && Proper(f, e) && Visit(e, t) && t < |e.path| - 1 && f.blocks[e.path[t]].term.Switch?
    ensures Narrowed(f, e, t, EdgeNarrow(f, fs, e.path[t], e.path[t + 1]))
  {
    var b, h := e.path[t], e.path[t + 1];
    var term := f.blocks[b].term;
    if term.deflt != h && term.v.Local? {
      var i := CaseTaken(f, e, t);
      assert term.v in TermVals(term);
      assert ValOk(f, term.v, b, |f.blocks[b].body|);
      TermValVisible(f, e, t, term.v);
      CaseMaxAbove(term.cases, |term.cases|, h, i);
      hide Ok, ExecOk, CaseMax;
      PutSound(f, e, t, map[], term.v, CaseMax(term.cases, |term.cases|, h));
    }
  }

  /** What an edge proves holds whenever the edge is taken. */
  lemma {:induction false} EdgeNarrowSound(f: Func, fs: FactSet, e: Exec, t: int)
    requires Ok(f) && Proper(f, e) && SoundOn(f, fs, e) && Visit(e, t) && t < |e.path| - 1
    ensures Narrowed(f, e, t, EdgeNarrow(f, fs, e.path[t], e.path[t + 1]))
  {
    var b, h := e.path[t], e.path[t + 1];
    var term := f.blocks[b].term;
    if term.Switch? {
      SwitchSound(f, fs, e, t);
    } else if term.Br? && term.yes != term.no {
      assert term.cond in TermVals(term);
      assert Leaves(term, e.envs[t], h);
      var w :| Evals(e.envs[t], term.cond, w) && h == if w != 0 then term.yes else term.no;
      if term.cond.Local? { TermValVisible(f, e, t, term.cond); }
      CondSound(f, fs, e, t, map[], term.cond, term.yes == h, CONDDEPTH);
    }
  }

  /** The bound of v where control leaves p, re-deriving its definition from the operands the edge
      narrows. */
  function EdgeBound(f: Func, fs: FactSet, ret: Caps, v: Val, p: int, m: Caps, depth: nat): Word
    decreases depth
  {
    if !v.Local? then BoundAt(fs, p, v)
    else
      var b := Min(BoundAt(fs, p, v), Cap(m, v.n));
      if depth == 0 || !DefinedBy(f, v.n) || |DefOf(f, v.n).args| < Arity(DefOf(f, v.n).op) then b
      else
        var d := DefOf(f, v.n);
        var bs := seq(|d.args|, i requires 0 <= i < |d.args| => EdgeBound(f, fs, ret, d.args[i], p, m, depth - 1));
        Min(b, InsBound(d, bs, RetOf(ret, d)))
  }

  function RetOf(ret: Caps, ins: Ins): Word {
    if ins.op.Call? then Cap(ret, ins.op.callee) else TOP
  }

  /** Every call result in sight is within its callee's return bound. */
  ghost predicate CallsBounded(f: Func, ret: Caps, e: Exec) {
    forall t, n :: Visible(f, e, t, n) && DefinedBy(f, n) ==> Get(e.envs[t], n) <= RetOf(ret, DefOf(f, n))
  }

  /** A visible value is within its rule's bound on any bounds of its operands there. */
  lemma {:induction false} InsSound(f: Func, e: Exec, t: int, n: int, ws: seq<Word>, bs: seq<Word>, ret: Word)
    requires Ok(f) && Proper(f, e) && Visible(f, e, t, n) && DefinedBy(f, n) && Get(e.envs[t], n) <= ret
    requires var d := DefOf(f, n);
             && |ws| == |bs| == |d.args| >= Arity(d.op) && EvalsAll(e.envs[t], d.args, ws)
                 && Yields(d, ws, Get(e.envs[t], n))
             && forall i :: 0 <= i < |ws| ==> ws[i] <= bs[i]
    ensures Get(e.envs[t], n) <= InsBound(DefOf(f, n), bs, ret)
  {
    var d := DefOf(f, n);
    forall i | 0 <= i < |ws| ensures ws[i] <= bs[i] && (d.args[i].Const? ==> ws[i] == ConstWord(d.args[i])) {
      assert Evals(e.envs[t], d.args[i], ws[i]);
    }
    RuleSound(d, ws, bs, ret, Get(e.envs[t], n));
    assert n in f.types && (!d.op.Icmp? && !d.op.Address? ==> f.types[n] == d.ty);
    StoredAt(f, e, t, n);
  }

  lemma {:induction false} EdgeBoundSound(f: Func, fs: FactSet, ret: Caps, e: Exec, t: int, v: Val, w: Word, m: Caps,
                                          depth: nat)
    requires Ok(f) && Proper(f, e) && SoundOn(f, fs, e) && CallsBounded(f, ret, e) && Narrowed(f, e, t, m)
    requires Evals(e.envs[t], v, w)
    requires v.Local? ==> Visible(f, e, t, v.n) && v.n in f.types && f.types[v.n] == v.ty
    ensures w <= EdgeBound(f, fs, ret, v, e.path[t], m, depth)
    decreases depth
  {
    hide Ok, ExecOk, SoundOn, BoundAt, InsBound, Yields, RetOf;
    BoundSound(f, fs, e, t, v, w);
    if v.Local? && depth > 0 && DefinedBy(f, v.n) && |DefOf(f, v.n).args| >= Arity(DefOf(f, v.n).op) {
      var d, p := DefOf(f, v.n), e.path[t];
      assert w <= Cap(m, v.n) && w <= RetOf(ret, d);
      hide CallsBounded, Narrowed;
      var ws := OperandWords(f, e, t, v.n);
      var bs := seq(|d.args|, i requires 0 <= i < |d.args| => EdgeBound(f, fs, ret, d.args[i], p, m, depth - 1));
      forall i | 0 <= i < |ws|
        ensures ws[i] <= bs[i]
      {
        EdgeBoundSound(f, fs, ret, e, t, d.args[i], ws[i], m, depth - 1);
      }
      InsSound(f, e, t, v.n, ws, bs, RetOf(ret, d));
    }
  }

  /** The words a visible value was computed from, and that its operands are visible and typed. */
  lemma {:induction false} OperandWords(f: Func, e: Exec, t: int, n: int) returns (ws: seq<Word>)
    requires Ok(f) && Proper(f, e) && Visible(f, e, t, n) && DefinedBy(f, n)
    ensures |DefOf(f, n).args| >= Arity(DefOf(f, n).op) && EvalsAll(e.envs[t], DefOf(f, n).args, ws)
    ensures Yields(DefOf(f, n), ws, Get(e.envs[t], n))
    ensures forall i :: 0 <= i < |DefOf(f, n).args| ==>
                          Evals(e.envs[t], DefOf(f, n).args[i], ws[i])
                          && (DefOf(f, n).args[i].Local? ==>
                              Visible(f, e, t, DefOf(f, n).args[i].n) && DefOf(f, n).args[i].n in f.types
                              && f.types[DefOf(f, n).args[i].n] == DefOf(f, n).args[i].ty)
  {
    Consistent(f, e, t, n);
    ws :| EvalsAll(e.envs[t], DefOf(f, n).args, ws) && Yields(DefOf(f, n), ws, Get(e.envs[t], n));
    forall i | 0 <= i < |DefOf(f, n).args| && DefOf(f, n).args[i].Local?
      ensures DefOf(f, n).args[i].n in f.types && f.types[DefOf(f, n).args[i].n] == DefOf(f, n).args[i].ty
    {
      assert ValOk(f, DefOf(f, n).args[i], f.def[n].b, f.def[n].i);
    }
  }
}
