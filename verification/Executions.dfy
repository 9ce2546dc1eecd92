/** Executions of an SSA function as paths with the values at the end of every block visit, and
    what dominance says about them: a visible value is still its defining instruction's result on
    the operands as they are now. */
module Executions {
  import opened Words
  import opened Cfg
  import opened Bounds

  // ----- functions -----

  datatype Phi = Phi(res: int, ty: Ty, args: map<int, Val>)

  datatype Term =
    | Ret(vals: seq<Val>)
    | Jump(to: int)
    | Br(cond: Val, yes: int, no: int)
    | Switch(v: Val, deflt: int, cases: seq<(Word, int)>)

  datatype Block = Block(phis: seq<Phi>, body: seq<Ins>, term: Term)

  /** Where a value is defined: its block and its index there, -1 for a phi. */
  datatype Site = Site(b: int, i: int)

  /** Names without a definition are parameters. Instructions without a result have a negative
      result name. */
  datatype Func = Func(params: seq<int>, blocks: seq<Block>, def: map<int, Site>, types: map<int, Ty>)

  function Succs(t: Term): seq<int> {
    match t
    case Ret(_) => []
    case Jump(to) => [to]
    case Br(_, yes, no) => [yes, no]
    case Switch(_, deflt, cases) => [deflt] + seq(|cases|, i requires 0 <= i < |cases| => cases[i].1)
  }

  function GraphOf(f: Func): Graph {
    seq(|f.blocks|, i requires 0 <= i < |f.blocks| => Succs(f.blocks[i].term))
  }

  predicate IsBlock(f: Func, b: int) {
    0 <= b < |f.blocks|
  }

  predicate IsIns(f: Func, b: int, i: int) {
    IsBlock(f, b) && 0 <= i < |f.blocks[b].body|
  }

  predicate IsPhi(f: Func, b: int, j: int) {
    IsBlock(f, b) && 0 <= j < |f.blocks[b].phis|
  }

  /** The defining instruction of a non-phi value. */
  predicate DefinedBy(f: Func, n: int) {
    n in f.def && IsIns(f, f.def[n].b, f.def[n].i)
  }

  function DefOf(f: Func, n: int): Ins
    requires DefinedBy(f, n)
  {
    f.blocks[f.def[n].b].body[f.def[n].i]
  }

  predicate PhiAt(f: Func, n: int, j: int) {
    n in f.def && f.def[n].i == -1 && IsPhi(f, f.def[n].b, j) && f.blocks[f.def[n].b].phis[j].res == n
  }

  // ----- valid SSA -----

  ghost predicate Defined(f: Func) {
    && (forall b, i :: IsIns(f, b, i) && f.blocks[b].body[i].res >= 0 ==>
          f.blocks[b].body[i].res in f.def && f.def[f.blocks[b].body[i].res] == Site(b, i))
    && (forall b, j :: IsPhi(f, b, j) ==>
                      f.blocks[b].phis[j].res in f.def && f.def[f.blocks[b].phis[j].res] == Site(b, -1))
    && (forall n :: n in f.def ==>
                      n >= 0 &&
                      if f.def[n].i == -1 then exists j :: PhiAt(f, n, j)
                      else DefinedBy(f, n) && DefOf(f, n).res == n)
  }

  /** n may be read by instruction i of block b. */
  ghost predicate Reaches(f: Func, n: int, b: int, i: int) {
    n in f.def ==> Dominates(GraphOf(f), f.def[n].b, b) && (f.def[n].b == b ==> f.def[n].i < i)
  }

  ghost predicate ValOk(f: Func, v: Val, b: int, i: int) {
    v.Local? ==> v.n in f.types && f.types[v.n] == v.ty && Reaches(f, v.n, b, i)
  }

  /** Definitions dominate uses, and operands are written with their values' types. */
  ghost predicate Dominated(f: Func) {
    && (forall b, i, k :: IsIns(f, b, i) && 0 <= k < |f.blocks[b].body[i].args| ==>
                      ValOk(f, f.blocks[b].body[i].args[k], b, i))
    && (forall b, j, p :: IsPhi(f, b, j) && p in f.blocks[b].phis[j].args ==>
                      IsBlock(f, p) && ValOk(f, f.blocks[b].phis[j].args[p], p, |f.blocks[p].body|))
    && (forall b, v :: IsBlock(f, b) && v in TermVals(f.blocks[b].term) ==> ValOk(f, v, b, |f.blocks[b].body|))
  }

  function TermVals(t: Term): seq<Val> {
    match t
    case Ret(vals) => vals
    case Jump(_) => []
    case Br(c, _, _) => [c]
    case Switch(v, _, _) => [v]
  }

  /** Operands of the i1 algebra. */
  predicate BoolArg(ins: Ins, k: int) {
    (ins.op.Select? && k == 0)
        || (ins.ty == Int(1) && (ins.op.And? || ins.op.Or? || ins.op.Xor? || ins.op.Select? || ins.op.Zext?))
  }

  /** Results carry their opcode's type; i1 algebra stays in i1. */
  ghost predicate Typed(f: Func) {
    && (forall b, i :: IsIns(f, b, i) ==> |f.blocks[b].body[i].args| >= Arity(f.blocks[b].body[i].op))
    && (forall n :: DefinedBy(f, n) ==>
                      n in f.types && (!DefOf(f, n).op.Icmp? && !DefOf(f, n).op.Address? ==>
                      f.types[n] == DefOf(f, n).ty))
    && (forall b, j :: IsPhi(f, b, j) ==>
                      f.blocks[b].phis[j].res in f.types && f.types[f.blocks[b].phis[j].res] == f.blocks[b].phis[j].ty)
    && (forall n, k :: DefinedBy(f, n) && 0 <= k < |DefOf(f, n).args| && BoolArg(DefOf(f, n), k) ==>
                      DefOf(f, n).args[k].ty == Int(1))
    && (forall n, k :: DefinedBy(f, n) && DefOf(f, n).op.Icmp? && 0 <= k < |DefOf(f, n).args| ==>
                      DefOf(f, n).args[k].ty == DefOf(f, n).ty)
    && (forall b :: IsBlock(f, b) && f.blocks[b].term.Br? ==> f.blocks[b].term.cond.ty == Int(1))
  }

  /** Operand types as the opcode takes them. */
  predicate ArgsTyped(ins: Ins)
    requires |ins.args| >= Arity(ins.op)
  {
    match ins.op
    case And => ins.args[0].ty == ins.args[1].ty == ins.ty
    case Or => ins.args[0].ty == ins.args[1].ty == ins.ty
    case Xor => ins.args[0].ty == ins.args[1].ty == ins.ty
    case Select => ins.args[1].ty == ins.args[2].ty == ins.ty
    case Lshr => ins.args[0].ty == ins.ty
    case Udiv => ins.args[0].ty == ins.ty
    case Urem => ins.args[0].ty == ins.ty
    case Zext =>
        ins.args[0].ty == ins.ty || (ins.args[0].ty.Int? && ins.ty.Int? && 1 <= ins.args[0].ty.bits < ins.ty.bits)
    case PtrCast => ins.ty.Ptr? || ins.args[0].ty.Ptr?
    case Trunc => ins.args[0].ty.Int? && ins.ty.Int? && ins.ty.bits < ins.args[0].ty.bits
    case _ => true
  }

  predicate GlobalIsPtr(v: Val) {
    v.Global? ==> v.ty == Ptr
  }

  ghost predicate ArgsOk(f: Func) {
    && (forall b, i :: IsIns(f, b, i) && |f.blocks[b].body[i].args| >= Arity(f.blocks[b].body[i].op) ==>
                      ArgsTyped(f.blocks[b].body[i]))
    && (forall b, i, k :: IsIns(f, b, i) && 0 <= k < |f.blocks[b].body[i].args| ==>
                      GlobalIsPtr(f.blocks[b].body[i].args[k]))
    && (forall b, j, p :: IsPhi(f, b, j) && p in f.blocks[b].phis[j].args ==>
          GlobalIsPtr(f.blocks[b].phis[j].args[p]) && f.blocks[b].phis[j].args[p].ty == f.blocks[b].phis[j].ty)
  }

  ghost predicate Ok(f: Func) {
    Valid(GraphOf(f)) && f.blocks[0].phis == [] && Defined(f) && Dominated(f) && Typed(f) && ArgsOk(f)
  }

  // ----- executions -----

  type Env = map<int, Word>

  function Get(env: Env, n: int): Word {
    if n in env then env[n] else 0
  }

  /** w may be the word of an operand; an address is any word. */
  predicate Evals(env: Env, v: Val, w: Word) {
    match v
    case Const(_, _) => w == ConstWord(v)
    case Local(n, _) => w == Get(env, n)
    case Global(_, _) => true
  }

  ghost predicate EvalsAll(env: Env, args: seq<Val>, ws: seq<Word>) {
    |ws| == |args| && forall i :: 0 <= i < |args| ==> Evals(env, args[i], ws[i])
  }

  /** The result is what the instruction yields on its operands. */
  ghost predicate InsHolds(ins: Ins, env: Env) {
    |ins.args| >= Arity(ins.op) && exists ws :: EvalsAll(env, ins.args, ws) && Yields(ins, ws, Get(env, ins.res))
  }

  /** Control may leave a block by this terminator to this successor. */
  ghost predicate Leaves(t: Term, env: Env, next: int) {
    match t
    case Ret(_) => false
    case Jump(to) => next == to
    case Br(c, yes, no) => exists w :: Evals(env, c, w) && next == if w != 0 then yes else no
    case Switch(v, deflt, cases) => next == deflt || exists i :: CaseHit(env, v, cases, i) && next == cases[i].1
  }

  /** The switched word equals case i's constant at its width. */
  predicate CaseHit(env: Env, v: Val, cases: seq<(Word, int)>, i: int) {
    0 <= i < |cases| && Evals(env, v, ConstWord(Const(cases[i].0, v.ty)))
  }

  /** The blocks visited, the values at the end of every visit, and how many instructions of the
      last block were completed. */
  datatype Exec = Exec(path: seq<int>, envs: seq<Env>, cut: nat)

  predicate Visit(e: Exec, t: int) {
    0 <= t < |e.path| && t < |e.envs|
  }

  predicate Completed(e: Exec, t: int, i: int) {
    t < |e.path| - 1 || i < e.cut
  }

  /** n has its value at visit t. */
  ghost predicate Visible(f: Func, e: Exec, t: int, n: int) {
    Visit(e, t) && (n in f.def ==>
        Dominates(GraphOf(f), f.def[n].b, e.path[t]) && (f.def[n].b == e.path[t] ==> Completed(e, t, f.def[n].i)))
  }

  /** A visit changes only the values its block defines. */
  ghost predicate Carries(f: Func, e: Exec) {
    forall t, n :: 0 < t < |e.path| && Visit(e, t) && !(n in f.def && f.def[n].b == e.path[t]) ==>
                  Get(e.envs[t], n) == Get(e.envs[t - 1], n)
  }

  ghost predicate PhisHold(f: Func, e: Exec) {
    forall t, j :: 0 < t < |e.path| && Visit(e, t) && IsPhi(f, e.path[t], j) ==>
                     var phi := f.blocks[e.path[t]].phis[j];
                     e.path[t - 1] in phi.args && Evals(e.envs[t - 1], phi.args[e.path[t - 1]], Get(e.envs[t], phi.res))
  }

  ghost predicate BodiesHold(f: Func, e: Exec) {
    forall t, i :: Visit(e, t) && IsIns(f, e.path[t], i) && Completed(e, t, i)
                   && f.blocks[e.path[t]].body[i].res >= 0 ==>
                     InsHolds(f.blocks[e.path[t]].body[i], e.envs[t])
  }

  ghost predicate EdgesHold(f: Func, e: Exec) {
    forall t :: Visit(e, t) && t < |e.path| - 1 && IsBlock(f, e.path[t]) ==>
                  Leaves(f.blocks[e.path[t]].term, e.envs[t], e.path[t + 1])
  }

  /** The most a word of a type holds: words are zero-extended at their type's storage width, and
      i1 words are 0 or 1. */
  function Most(ty: Ty): (c: Word)
    ensures c <= TypeMax(ty)
  {
    if ty == Int(1) then 1 else TypeMax(ty)
  }

  /** Values that come from outside the function's own arithmetic. */
  predicate Foreign(f: Func, n: int) {
    n !in f.def || (DefinedBy(f, n) && (DefOf(f, n).op.Call? || DefOf(f, n).op.Address? || DefOf(f, n).op.Other?))
  }

  /** Parameters, call results and the results of opcodes without a rule arrive at their type's
      storage width. */
  ghost predicate Given(f: Func, e: Exec) {
    forall t, n :: Visible(f, e, t, n) && n in f.types && Foreign(f, n) ==> Get(e.envs[t], n) <= TypeMax(f.types[n])
  }

  ghost predicate ExecOk(f: Func, e: Exec) {
    && Path(GraphOf(f), e.path) && |e.envs| == |e.path|
    && Carries(f, e) && PhisHold(f, e) && BodiesHold(f, e) && EdgesHold(f, e) && Given(f, e)
  }

  predicate Cast(f: Func, n: int) {
    DefinedBy(f, n) && DefOf(f, n).op.PtrCast?
  }

  /** No cast leaves a word wider than its type, and i1 words from outside are 0 or 1. */
  ghost predicate AllFit(f: Func, e: Exec) {
    forall t, n :: Visible(f, e, t, n) && n in f.types && (Foreign(f, n) || Cast(f, n)) ==>
                     Get(e.envs[t], n) <= Most(f.types[n])
  }

  /** The executions the bounds are for. */
  ghost predicate Proper(f: Func, e: Exec) {
    ExecOk(f, e) && AllFit(f, e)
  }

  // ----- what dominance keeps -----

  /** The last visit to a dominator of the block of visit t. */
  lemma {:induction false} LastVisit(f: Func, e: Exec, t: int, b: int) returns (s: int)
    requires ExecOk(f, e) && Visit(e, t) && Dominates(GraphOf(f), b, e.path[t])
    ensures 0 <= s <= t && e.path[s] == b && forall r :: s < r <= t ==> e.path[r] != b
  {
    Prefix(GraphOf(f), e.path, t);
    s := LastIn(e.path, t, b);
  }

  lemma {:induction false} LastIn(path: seq<int>, t: int, b: int) returns (s: int)
    requires 0 <= t < |path| && b in path[..t + 1]
    ensures 0 <= s <= t && path[s] == b && forall r :: s < r <= t ==> path[r] != b
    decreases t
  {
    if path[t] == b {
      s := t;
    } else {
      assert path[..t + 1] == path[..t] + [path[t]];
      s := LastIn(path, t - 1, b);
    }
  }

  lemma {:induction false} Unchanged(f: Func, e: Exec, s: int, t: int, n: int)
    requires ExecOk(f, e) && 0 <= s <= t && Visit(e, t)
    requires n in f.def ==> forall r :: s < r <= t ==> e.path[r] != f.def[n].b
    ensures Get(e.envs[t], n) == Get(e.envs[s], n)
    decreases t
  {
    hide PhisHold, BodiesHold, EdgesHold, Given;
    if s < t {
      Unchanged(f, e, s, t - 1, n);
      assert Get(e.envs[t], n) == Get(e.envs[t - 1], n);
    }
  }

  /** No redefinition slips between a dominator and what it dominates. */
  lemma {:induction false} NoRedefinition(f: Func, e: Exec, s: int, t: int, a: int, b: int)
    requires ExecOk(f, e) && 0 <= s <= t && Visit(e, t) && e.path[s] == b && (forall r :: s < r <= t ==> e.path[r] != b)
    requires Dominates(GraphOf(f), a, b) && Dominates(GraphOf(f), b, e.path[t]) && a != b
    ensures forall r :: s < r <= t ==> e.path[r] != a
  {
    forall r | s < r <= t ensures e.path[r] != a {
      if e.path[r] == a {
        Prefix(GraphOf(f), e.path, r);
        var q := e.path[r..t + 1];
        NoWayAround(GraphOf(f), e.path[..r + 1], a, b, e.path[t], q);
        assert false;
      }
    }
  }

  /** A value seen at a block is the value the block's dominator last saw. */
  lemma {:induction false} Stable(f: Func, e: Exec, s: int, t: int, n: int)
    requires ExecOk(f, e) && 0 <= s <= t && Visit(e, t) && (forall r :: s < r <= t ==> e.path[r] != e.path[s])
    requires Dominates(GraphOf(f), e.path[s], e.path[t])
    requires n in f.def ==> Dominates(GraphOf(f), f.def[n].b, e.path[s])
    ensures Get(e.envs[t], n) == Get(e.envs[s], n)
  {
    if n in f.def && f.def[n].b != e.path[s] { NoRedefinition(f, e, s, t, f.def[n].b, e.path[s]); }
    Unchanged(f, e, s, t, n);
  }

  /** Operands of a visible value are visible. */
  lemma {:induction false} OperandVisible(f: Func, e: Exec, t: int, n: int, a: int)
    requires Ok(f) && ExecOk(f, e) && Visible(f, e, t, n) && n in f.def && Reaches(f, a, f.def[n].b, f.def[n].i)
    ensures Visible(f, e, t, a)
  {
    if a in f.def {
      var A, B := f.def[a].b, f.def[n].b;
      DominatesTrans(GraphOf(f), A, B, e.path[t]);
      if A == e.path[t] && A != B {
        var s := LastVisit(f, e, t, B);
        NoRedefinition(f, e, s, t, A, B);
        assert false;
      }
    }
  }

  lemma {:induction false} EvalsSame(env: Env, env': Env, args: seq<Val>, ws: seq<Word>)
    requires EvalsAll(env, args, ws)
    requires forall i :: 0 <= i < |args| && args[i].Local? ==> Get(env', args[i].n) == Get(env, args[i].n)
    ensures EvalsAll(env', args, ws)
  {
  }

  /** A visible value is what its instruction yields on its operands' present values. */
  lemma {:induction false} Consistent(f: Func, e: Exec, t: int, n: int)
    requires Ok(f) && ExecOk(f, e) && Visible(f, e, t, n) && DefinedBy(f, n)
    ensures DefOf(f, n).res == n && InsHolds(DefOf(f, n), e.envs[t])
    ensures forall k :: 0 <= k < |DefOf(f, n).args| && DefOf(f, n).args[k].Local? ==>
                          Visible(f, e, t, DefOf(f, n).args[k].n)
  {
    var ins, B := DefOf(f, n), f.def[n].b;
    var s := LastVisit(f, e, t, B);
    assert Completed(e, s, f.def[n].i);
    assert InsHolds(ins, e.envs[s]);
    var ws :| EvalsAll(e.envs[s], ins.args, ws) && Yields(ins, ws, Get(e.envs[s], n));
    forall k | 0 <= k < |ins.args| && ins.args[k].Local?
      ensures Visible(f, e, t, ins.args[k].n) && Get(e.envs[t], ins.args[k].n) == Get(e.envs[s], ins.args[k].n)
    {
      assert ValOk(f, ins.args[k], B, f.def[n].i);
      OperandVisible(f, e, t, n, ins.args[k].n);
      Stable(f, e, s, t, ins.args[k].n);
    }
    Unchanged(f, e, s, t, n);
    EvalsSame(e.envs[s], e.envs[t], ins.args, ws);
  }

  // ----- every value is stored at its type's width -----

  lemma {:induction false} MostPower(ty: Ty) returns (k: nat)
    ensures k <= 32 && Most(ty) == Pow2(k) - 1 && (ty.Int? && 1 <= ty.bits < 32 ==> ty.bits <= k)
  {
    Pow2At32();
    Pow2Sum(8, 8); Pow2Sum(16, 8);
    assert Pow2(8) == 0x100 && Pow2(1) == 2;
    k := if ty == Int(1) then 1 else if !ty.Int? || ty.bits < 1 || ty.bits > 24 then 32
         else if ty.bits <= 8 then 8 else if ty.bits <= 16 then 16 else 24;
  }

  /** A word cut to a type's width is stored at it. */
  lemma {:induction false} CutStored(x: int, ty: Ty)
    ensures 0 <= x % Pow2(Width(ty)) <= Most(ty)
  {
    var k := MostPower(ty);
    Pow2At32();
    if Width(ty) <= k { Pow2Mono(Width(ty), k); }
    hide Most;
    ModRange(x, Pow2(Width(ty)));
  }

  lemma ModRange(x: int, p: int)
    requires p >= 1
    ensures 0 <= x % p < p
  {
  }

  lemma {:induction false} OpsStored(a: Word, b: Word, ty: Ty)
    requires a <= Most(ty) && b <= Most(ty)
    ensures OrW(a, b) <= Most(ty) && XorW(a, b) <= Most(ty)
  {
    var k := MostPower(ty);
    OpsBound(a, b, k);
  }

  lemma MostWiden(a: Ty, b: Ty)
    requires a == b || (a.Int? && b.Int? && 1 <= a.bits < b.bits)
    ensures Most(a) <= Most(b)
  {
  }

  ghost predicate ArgStored(v: Val, w: Word) {
    w <= Most(v.ty)
  }

  /** Stored operands give a stored result. */
  lemma {:induction false} YieldsStored(ins: Ins, ws: seq<Word>, v: Word)
    requires |ws| == |ins.args| >= Arity(ins.op) && ArgsTyped(ins) && Yields(ins, ws, v)
    requires forall k :: 0 <= k < |ws| ==> ArgStored(ins.args[k], ws[k])
    requires !ins.op.Call? && !ins.op.Address? && !ins.op.Other? && !ins.op.PtrCast?
    ensures v <= if ins.op.Icmp? then 1 else Most(ins.ty)
  {
    hide AndW, OrW, XorW, Pow2, Most, Low32;
    var x: int, y: int := if |ws| > 0 then ws[0] else 0, if |ws| > 1 then ws[1] else 0;
    match ins.op
    case Icmp(_) =>
    case And => AndLess(ws[0], ws[1]); AndIs(ws[0], ws[1]);
    case Or => OpsStored(ws[0], ws[1], ins.ty);
    case Xor => OpsStored(ws[0], ws[1], ins.ty);
    case Add => CutStored(x + y, ins.ty);
    case Mul => CutStored(x * y, ins.ty);
    case Sub => CutStored(x - y, ins.ty);
    case Select =>
    case Zext => MostWiden(ins.args[0].ty, ins.ty);
    case Trunc =>
      CutStored(ws[0], ins.ty);
      if !Narrows(ins) { MostWhole(ins.ty); }
    case Shl =>
        CutStored(v, ins.ty); Pow2At32(); if Width(ins.ty) == 32 { MostWhole(ins.ty); }
        else { Fixed(v, Pow2(Width(ins.ty))); }
    case Lshr =>
    case Udiv =>
    case Urem =>
  }

  lemma AndIs(a: Word, b: Word)
    ensures AndW(a, b) == Words.And(a, b)
  {
  }

  lemma Fixed(v: int, p: int)
    requires 0 <= v < p
    ensures v % p == v
  {
  }

  lemma MostWhole(ty: Ty)
    requires !ty.Int? || ty.bits >= 32
    ensures Most(ty) == TOP
  {
  }

  lemma {:induction false} ConstStored(v: Val)
    requires v.Const?
    ensures ConstWord(v) <= Most(v.ty)
  {
    if v.ty.Int? && 1 <= v.ty.bits < 32 { CutStored(v.w, v.ty); }
  }

  /** An operand of n, where n's instruction was executed. */
  lemma {:induction false} OperandAt(f: Func, e: Exec, s: int, n: int, v: Val, w: Word)
    requires Ok(f) && Proper(f, e) && Visit(e, s) && n in f.def && e.path[s] == f.def[n].b
    requires Completed(e, s, f.def[n].i)
    requires ValOk(f, v, f.def[n].b, f.def[n].i) && GlobalIsPtr(v) && Evals(e.envs[s], v, w)
    ensures ArgStored(v, w)
    decreases s, f.def[n].i, 3
  {
    hide Carries, PhisHold, BodiesHold, EdgesHold, Given, Typed, ArgsOk, Dominated;
    if v.Const? {
      ConstStored(v);
    } else if v.Global? {
      MostWhole(Ptr);
    } else {
      ValueStored(f, e, s, f.def[n].i, v.n);
    }
  }

  /** A value that reaches place i of the block of visit s. */
  lemma {:induction false} ValueStored(f: Func, e: Exec, s: int, i: int, a: int)
    requires Ok(f) && Proper(f, e) && Visit(e, s) && i >= -1 && a in f.types && Reaches(f, a, e.path[s], i)
    requires forall k :: k < i ==> Completed(e, s, k)
    ensures Get(e.envs[s], a) <= Most(f.types[a])
    decreases s, i, 2
  {
    if a !in f.def {
      assert Visible(f, e, s, a);
    } else {
      var s' := LastVisit(f, e, s, f.def[a].b);
      Unchanged(f, e, s', s, a);
      assert Completed(e, s', f.def[a].i);
      DefStored(f, e, s', a);
    }
  }

  /** A value right after its definition. */
  lemma {:induction false} DefStored(f: Func, e: Exec, s: int, n: int)
    requires Ok(f) && Proper(f, e) && Visit(e, s) && n in f.def && n in f.types
    requires e.path[s] == f.def[n].b && Completed(e, s, f.def[n].i)
    ensures Get(e.envs[s], n) <= Most(f.types[n])
    decreases s, f.def[n].i, 5
  {
    if f.def[n].i == -1 {
      var j :| PhiAt(f, n, j);
      PhiStored(f, e, s, n, j);
    } else if Foreign(f, n) || Cast(f, n) {
      assert Visible(f, e, s, n);
    } else {
      InsStored(f, e, s, n);
    }
  }

  /** What a phi took, on the edge it was entered by. */
  lemma {:induction false} PhiTook(f: Func, e: Exec, s: int, n: int, j: int)
    requires Ok(f) && Proper(f, e) && Visit(e, s) && PhiAt(f, n, j) && e.path[s] == f.def[n].b
    ensures s > 0 && Visit(e, s - 1) && n in f.types
    ensures var phi, p := f.blocks[e.path[s]].phis[j], e.path[s - 1];
            && IsBlock(f, p) && p in phi.args && Evals(e.envs[s - 1], phi.args[p], Get(e.envs[s], n))
            && GlobalIsPtr(phi.args[p]) && phi.args[p].ty == f.types[n] && ValOk(f, phi.args[p], p, |f.blocks[p].body|)
  {
    hide Carries, BodiesHold, EdgesHold, Given, Defined;
    assert IsPhi(f, e.path[s], j);
  }

  lemma {:induction false} PhiStored(f: Func, e: Exec, s: int, n: int, j: int)
    requires Ok(f) && Proper(f, e) && Visit(e, s) && PhiAt(f, n, j) && e.path[s] == f.def[n].b
    ensures n in f.types && Get(e.envs[s], n) <= Most(f.types[n])
    decreases s, f.def[n].i, 4
  {
    hide Ok, Carries, PhisHold, BodiesHold, EdgesHold, Given;
    PhiTook(f, e, s, n, j);
    var p := e.path[s - 1];
    var v := f.blocks[e.path[s]].phis[j].args[p];
    if v.Const? {
      ConstStored(v);
    } else if v.Global? {
      MostWhole(Ptr);
    } else {
      ValueStored(f, e, s - 1, |f.blocks[p].body|, v.n);
    }
  }

  lemma {:induction false} InsStored(f: Func, e: Exec, s: int, n: int)
    requires Ok(f) && Proper(f, e) && Visit(e, s) && n in f.def && !Foreign(f, n) && !Cast(f, n) && f.def[n].i != -1
    requires e.path[s] == f.def[n].b && Completed(e, s, f.def[n].i)
    ensures n in f.types && Get(e.envs[s], n) <= Most(f.types[n])
    decreases s, f.def[n].i, 4
  {
    assert DefinedBy(f, n) && DefOf(f, n).res == n;
    var ins := DefOf(f, n);
    assert IsIns(f, e.path[s], f.def[n].i) && InsHolds(ins, e.envs[s]);
    var ws :| EvalsAll(e.envs[s], ins.args, ws) && Yields(ins, ws, Get(e.envs[s], n));
    assert ArgsTyped(ins) && n in f.types && (!ins.op.Icmp? ==> f.types[n] == ins.ty);
    forall k | 0 <= k < |ws| ensures ArgStored(ins.args[k], ws[k]) {
      assert ValOk(f, ins.args[k], f.def[n].b, f.def[n].i) && GlobalIsPtr(ins.args[k]);
      OperandAt(f, e, s, n, ins.args[k], ws[k]);
    }
    hide Ok, Proper, Yields, EvalsAll;
    YieldsStored(ins, ws, Get(e.envs[s], n));
  }

  /** Every visible value, at every visit: what holds of foreign values and casts holds of all. */
  lemma {:induction false} StoredAt(f: Func, e: Exec, t: int, n: int)
    requires Ok(f) && Proper(f, e) && Visible(f, e, t, n) && n in f.types
    ensures Get(e.envs[t], n) <= Most(f.types[n])
  {
    if n in f.def {
      hide Ok, Carries, PhisHold, BodiesHold, EdgesHold, Given;
      var s := LastVisit(f, e, t, f.def[n].b);
      Unchanged(f, e, s, t, n);
      assert Completed(e, s, f.def[n].i);
      DefStored(f, e, s, n);
    }
  }
}
