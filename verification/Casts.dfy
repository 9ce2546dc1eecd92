/** Pointer casts to integers below a word (host/dmacc/facts.go, host/dmacc/func.go): the lowering
    forwards the whole word, and a bound read at an operand still applies the type. */
module Casts {
  import opened Words
  import opened Cfg
  import opened Bounds
  import opened Executions
  import opened Narrowing
  import opened Facts
  import WholeProgram

  /** A cast whose type alone promises a bound. */
  predicate Narrow(f: Func, n: int) {
    Cast(f, n) && TypeMax(DefOf(f, n).ty) < TOP
  }

  ghost predicate NoNarrow(f: Func) {
    forall n :: !Narrow(f, n)
  }

  /** i1 words from outside are 0 or 1. */
  ghost predicate BoolsGiven(f: Func, e: Exec) {
    forall t, n :: Visible(f, e, t, n) && n in f.types && Foreign(f, n) && f.types[n] == Int(1) ==>
                     Get(e.envs[t], n) <= 1
  }

  /** Without such casts every execution is one the bounds are for. */
  lemma {:induction false} WholeProper(f: Func, e: Exec)
    requires Ok(f) && ExecOk(f, e) && NoNarrow(f) && BoolsGiven(f, e)
    ensures Proper(f, e)
  {
    hide Carries, PhisHold, BodiesHold, EdgesHold, Dominated, Defined, ArgsOk;
    forall t, n | Visible(f, e, t, n) && n in f.types && (Foreign(f, n) || Cast(f, n))
      ensures Get(e.envs[t], n) <= Most(f.types[n])
    {
      if Cast(f, n) { assert !Narrow(f, n) && f.types[n] == DefOf(f, n).ty; }
    }
  }

  /** In a program without such casts every activation is one the whole-program bounds are for. */
  lemma {:induction false} RunWhole(p: WholeProgram.Prog, w: iset<WholeProgram.Act>)
    requires WholeProgram.ProgOk(p) && forall g :: g in p.funcs ==> NoNarrow(p.funcs[g])
    requires forall a :: a in w ==>
                           a.fn in p.funcs && ExecOk(p.funcs[a.fn], a.exec) && BoolsGiven(p.funcs[a.fn], a.exec)
    ensures forall a :: a in w ==> WholeProgram.Running(p, a)
  {
    hide Ok, ExecOk, BoolsGiven, NoNarrow;
    forall a | a in w ensures WholeProgram.Running(p, a) {
      WholeProper(p.funcs[a.fn], a.exec);
    }
  }

  /** Every value is within what a reader of its bounds is told. */
  ghost predicate Within(f: Func, fs: FactSet, e: Exec) {
    forall t, n :: Visible(f, e, t, n) && n in f.types ==>
                     Get(e.envs[t], n) <= BoundAt(fs, e.path[t], Local(n, f.types[n]))
  }

  ghost predicate CastsFit(f: Func, e: Exec) {
    forall t, n :: Visible(f, e, t, n) && Cast(f, n) ==> Get(e.envs[t], n) <= TypeMax(DefOf(f, n).ty)
  }

  /** In an execution the bounds are right exactly when every cast's word fits its type. */
  lemma {:induction false} CastIff(f: Func, c: Context, fs: FactSet, e: Exec)
    requires Ok(f) && ExecOk(f, e) && BoolsGiven(f, e) && Respects(f, c, e) && Sound(f, c, fs)
    requires forall n :: Cast(f, n) ==> DefOf(f, n).ty != Int(1)
    ensures Within(f, fs, e) <==> CastsFit(f, e)
  {
    assert forall n :: Cast(f, n) ==> n in f.types && f.types[n] == DefOf(f, n).ty by { CastTypes(f); }
    if CastsFit(f, e) {
      assert AllFit(f, e);
      hide Ok, ExecOk, Respects, BoundAt;
      forall t, n | Visible(f, e, t, n) && n in f.types
        ensures Get(e.envs[t], n) <= BoundAt(fs, e.path[t], Local(n, f.types[n]))
      {
        BoundSound(f, fs, e, t, Local(n, f.types[n]), Get(e.envs[t], n));
      }
    }
  }

  lemma {:induction false} CastTypes(f: Func)
    requires Ok(f)
    ensures forall n :: Cast(f, n) ==> n in f.types && f.types[n] == DefOf(f, n).ty
  {
    hide Dominated, Defined, ArgsOk;
  }

  // ----- casts that are reached -----

  /** An instruction that runs on any operands: no promise of a flag to keep. */
  predicate Unflagged(ins: Ins) {
    !((ins.op.Add? || ins.op.Mul?) && ins.nsw) && !(ins.op.Sub? && ins.nuw)
  }

  /** A cast of a parameter or a global's address, in the entry block behind such instructions. */
  predicate Early(f: Func, n: int) {
    && Narrow(f, n) && f.def[n].b == 0 && |DefOf(f, n).args| >= 1
    && (DefOf(f, n).args[0].Global? || (DefOf(f, n).args[0].Local? && DefOf(f, n).args[0].n !in f.def))
    && forall j :: 0 <= j < f.def[n].i ==> Unflagged(f.blocks[0].body[j])
  }

  /** The word of an operand when addresses are all ones. */
  function Operand(env: Env, v: Val): (w: Word)
    ensures Evals(env, v, w)
  {
    match v
    case Const(_, _) => ConstWord(v)
    case Local(n, _) => Get(env, n)
    case Global(_, _) => TOP
  }

  function OperandsOf(env: Env, args: seq<Val>): (ws: seq<Word>)
    ensures |ws| == |args| && forall i :: 0 <= i < |args| ==> ws[i] == Operand(env, args[i])
  {
    seq(|args|, i requires 0 <= i < |args| => Operand(env, args[i]))
  }

  /** Such an instruction yields a word. */
  lemma {:induction false} RunsOn(ins: Ins, ws: seq<Word>) returns (v: Word)
    requires |ws| == |ins.args| >= Arity(ins.op) && Unflagged(ins)
    ensures Yields(ins, ws, v) && (ins.op.Call? || ins.op.Address? || ins.op.Other? ==> v == 0)
  {
    var p := Pow2(Width(ins.ty));
    Pow2At32();
    Pow2Mono(Width(ins.ty), 32);
    hide Pow2;
    match ins.op
    case Icmp(q) => v := if Holds(q, ws[0], ws[1]) then 1 else 0;
    case And => v := AndW(ws[0], ws[1]);
    case Or => v := OrW(ws[0], ws[1]);
    case Xor => v := XorW(ws[0], ws[1]);
    case Add => v := Cut(ws[0] as int + ws[1], p);
    case Mul => v := Cut(ws[0] as int * ws[1], p);
    case Sub => v := Cut(ws[0] as int - ws[1], p);
    case Select => v := if ws[0] != 0 then ws[1] else ws[2];
    case Zext => v := ws[0];
    case PtrCast => v := ws[0];
    case Trunc => v := if Narrows(ins) then Cut(ws[0], p) else ws[0];
    case Shl =>
      var s := ConstOperand(ins.args[1]);
      v := if 0 <= s < 32 then Cut(ws[0] as int * Pow2(s), p) else 0;
    case Lshr =>
      var s := ConstOperand(ins.args[1]);
      if 0 <= s < 32 { QuotLess(ws[0], Pow2(s)); v := ws[0] / Pow2(s); } else { v := 0; }
    case Udiv =>
      var d := ConstOperand(ins.args[1]);
      if d > 0 { QuotLess(ws[0], d); v := ws[0] / d; } else { v := 0; }
    case Urem =>
      var d := ConstOperand(ins.args[1]);
      if d > 0 { ModBelow(ws[0], d); v := ws[0] % d; } else { v := 0; }
    case _ => v := 0;
  }

  function Cut(x: int, p: int): (w: Word)
    requires 1 <= p <= M32
    ensures w == x % p && w < p
  {
    x % p
  }

  /** Block-local definitions are apart: a later one writes no operand and no result of an earlier. */
  lemma {:induction false} LaterApart(f: Func, i: int, j: int)
    requires Ok(f) && IsIns(f, 0, i) && 0 <= j <= i && f.blocks[0].body[i].res >= 0
    ensures var ins := f.blocks[0].body[j];
            && (j < i ==> ins.res != f.blocks[0].body[i].res)
            && forall k :: 0 <= k < |ins.args| && ins.args[k].Local? ==> ins.args[k].n != f.blocks[0].body[i].res
  {
    var n, ins := f.blocks[0].body[i].res, f.blocks[0].body[j];
    assert f.def[n] == Site(0, i);
    assert IsIns(f, 0, j);
    forall k | 0 <= k < |ins.args| && ins.args[k].Local? ensures ins.args[k].n != n {
      assert ValOk(f, ins.args[k], 0, j);
    }
  }

  lemma {:induction false} HoldsStill(ins: Ins, env: Env, r: int, v: Word)
    requires InsHolds(ins, env) && ins.res != r
    requires forall k :: 0 <= k < |ins.args| && ins.args[k].Local? ==> ins.args[k].n != r
    ensures InsHolds(ins, env[r := v])
  {
    var ws :| EvalsAll(env, ins.args, ws) && Yields(ins, ws, Get(env, ins.res));
    hide Yields;
    assert EvalsAll(env[r := v], ins.args, ws);
  }

  /** The values after the first k instructions of the entry block, when parameter p is w. */
  ghost predicate After(f: Func, k: nat, p: int, w: Word, env: Env) {
    && |f.blocks| > 0 && k <= |f.blocks[0].body|
    && (forall j :: 0 <= j < k && f.blocks[0].body[j].res >= 0 ==> InsHolds(f.blocks[0].body[j], env))
    && (forall j :: 0 <= j < k && f.blocks[0].body[j].res >= 0 ==> Plainly(f.blocks[0].body[j], env))
    && (forall n :: n !in f.def ==> Get(env, n) == if n == p then w else 0)
  }

  /** Outside results are 0, and addresses cast all ones. */
  predicate Plainly(ins: Ins, env: Env) {
    && (ins.op.Call? || ins.op.Address? || ins.op.Other? ==> Get(env, ins.res) == 0)
    && (ins.op.PtrCast? && |ins.args| >= 1 && ins.args[0].Global? ==> Get(env, ins.res) == TOP)
  }

  lemma {:induction false} EntryEnv(f: Func, k: nat, p: int, w: Word) returns (env: Env)
    requires Ok(f) && k <= |f.blocks[0].body| && p !in f.def
    requires forall j :: 0 <= j < k ==> Unflagged(f.blocks[0].body[j])
    ensures After(f, k, p, w, env)
    decreases k
  {
    assert |f.blocks| > 0;
    if k == 0 { return map[p := w]; }
    var was := EntryEnv(f, k - 1, p, w);
    var ins := f.blocks[0].body[k - 1];
    if ins.res < 0 { return was; }
    assert IsIns(f, 0, k - 1) && |ins.args| >= Arity(ins.op) && ins.res in f.def;
    hide Ok, Yields, InsHolds, Plainly, Unflagged;
    var v := OneMore(f, k - 1, was);
    env := was[ins.res := v];
    forall j | 0 <= j < k - 1 && f.blocks[0].body[j].res >= 0
      ensures InsHolds(f.blocks[0].body[j], env) && Plainly(f.blocks[0].body[j], env)
    {
      LaterApart(f, k - 1, j);
      HoldsStill(f.blocks[0].body[j], was, ins.res, v);
      PlainStill(f.blocks[0].body[j], was, ins.res, v);
    }
  }

  lemma PlainStill(ins: Ins, env: Env, r: int, v: Word)
    requires Plainly(ins, env) && ins.res != r
    ensures Plainly(ins, env[r := v])
  {
  }

  lemma {:induction false} OneMore(f: Func, i: int, env: Env) returns (v: Word)
    requires Ok(f) && IsIns(f, 0, i) && f.blocks[0].body[i].res >= 0 && Unflagged(f.blocks[0].body[i])
    requires |f.blocks[0].body[i].args| >= Arity(f.blocks[0].body[i].op)
    ensures var ins := f.blocks[0].body[i];
            InsHolds(ins, env[ins.res := v]) && Plainly(ins, env[ins.res := v])
  {
    var ins := f.blocks[0].body[i];
    LaterApart(f, i, i);
    hide Ok;
    var ws := OperandsOf(env, ins.args);
    v := RunsOn(ins, ws);
    var env' := env[ins.res := v];
    assert Plainly(ins, env');
    assert Get(env', ins.res) == v;
    hide Yields;
    assert EvalsAll(env', ins.args, ws);
  }

  /** An early cast is reached, with a word its type does not hold. */
  lemma {:induction false} EarlyBreaks(f: Func, n: int) returns (e: Exec)
    requires Ok(f) && Early(f, n)
    ensures ExecOk(f, e) && BoolsGiven(f, e) && Visible(f, e, 0, n) && n in f.types && Get(e.envs[0], n) == TOP
    ensures TypeMax(f.types[n]) < TOP
  {
    CastTypes(f);
    var i, ins := f.def[n].i, DefOf(f, n);
    assert |f.blocks| > 0 && ins.res == n && IsIns(f, 0, i) && ArgsTyped(ins) && ValOk(f, ins.args[0], 0, i);
    var p, w := if ins.args[0].Local? then ins.args[0].n else -1, if ins.args[0].Local? then TOP else 0;
    assert p !in f.def;
    var env := EntryEnv(f, i + 1, p, w);
    e := Exec([0], [env], i + 1);
    assert InsHolds(ins, env) && Plainly(ins, env);
    if ins.args[0].Local? { CastWord(ins, env, p); }
    EntryExec(f, i + 1, p, w, env);
    assert Dominates(GraphOf(f), 0, 0);
  }

  lemma {:induction false} CastWord(ins: Ins, env: Env, p: int)
    requires InsHolds(ins, env) && ins.op.PtrCast? && ins.args[0].Local? && ins.args[0].n == p && Get(env, p) == TOP
    ensures Get(env, ins.res) == TOP
  {
    var ws :| EvalsAll(env, ins.args, ws) && Yields(ins, ws, Get(env, ins.res));
    assert Evals(env, ins.args[0], ws[0]);
  }

  lemma {:induction false} EntryExec(f: Func, k: nat, p: int, w: Word, env: Env)
    requires Ok(f) && After(f, k, p, w, env) && (p in f.types && w != 0 ==> TypeMax(f.types[p]) == TOP)
    ensures ExecOk(f, Exec([0], [env], k)) && BoolsGiven(f, Exec([0], [env], k))
  {
    var e := Exec([0], [env], k);
    assert Path(GraphOf(f), e.path) by { assert Valid(GraphOf(f)); }
    forall t, n | Visible(f, e, t, n) && n in f.types && Foreign(f, n) && n in f.def ensures Get(e.envs[t], n) == 0 {
      EntryDef(f, k, env, n);
      assert Plainly(DefOf(f, n), env);
    }
    hide Ok, InsHolds, Plainly;
  }

  lemma {:induction false} EntryDef(f: Func, k: nat, env: Env, n: int)
    requires Ok(f) && Visible(f, Exec([0], [env], k), 0, n) && n in f.def && DefinedBy(f, n)
    ensures f.def[n].b == 0 && 0 <= f.def[n].i < k && DefOf(f, n).res == n >= 0
  {
    assert PathTo(GraphOf(f), [0], 0) by { assert Valid(GraphOf(f)); }
  }

  /** For functions whose narrow casts are early casts of parameters and addresses: what the
      analysis says is right in every execution exactly when there is none. */
  lemma {:induction false} NarrowIff(f: Func)
    requires Ok(f) && forall n :: Narrow(f, n) ==> Early(f, n)
    ensures NoNarrow(f) <==>
            forall c, fs, e :: Sound(f, c, fs) && ExecOk(f, e) && BoolsGiven(f, e) && Respects(f, c, e) ==>
                                 Within(f, fs, e)
  {
    hide Ok, ExecOk, BoolsGiven, Respects, Early, Within;
    if NoNarrow(f) {
      forall c, fs, e | Sound(f, c, fs) && ExecOk(f, e) && BoolsGiven(f, e) && Respects(f, c, e)
        ensures Within(f, fs, e)
      {
        WholeWithin(f, c, fs, e);
      }
    } else {
      var n :| Narrow(f, n);
      var e := EarlyBreaks(f, n);
      var c, fs := Context([], map[]), FactSet(map[], seq(|f.blocks|, i => map[]));
      Unbounded(f, c, fs, e);
      Broken(f, fs, e, n);
    }
  }

  lemma {:induction false} WholeWithin(f: Func, c: Context, fs: FactSet, e: Exec)
    requires Ok(f) && NoNarrow(f) && Sound(f, c, fs) && ExecOk(f, e) && BoolsGiven(f, e) && Respects(f, c, e)
    ensures Within(f, fs, e)
  {
    WholeProper(f, e);
    hide Ok, ExecOk, BoolsGiven, Respects, BoundAt;
    forall t, n | Visible(f, e, t, n) && n in f.types
      ensures Get(e.envs[t], n) <= BoundAt(fs, e.path[t], Local(n, f.types[n]))
    {
      BoundSound(f, fs, e, t, Local(n, f.types[n]), Get(e.envs[t], n));
    }
  }

  /** Nothing known is sound, and every execution respects it. */
  lemma {:induction false} Unbounded(f: Func, c: Context, fs: FactSet, e: Exec)
    requires c == Context([], map[]) && fs == FactSet(map[], seq(|f.blocks|, i => map[]))
    ensures Sound(f, c, fs) && Respects(f, c, e)
  {
  }

  lemma {:induction false} Broken(f: Func, fs: FactSet, e: Exec, n: int)
    requires Visible(f, e, 0, n) && n in f.types && Get(e.envs[0], n) == TOP && TypeMax(f.types[n]) < TOP
    ensures !Within(f, fs, e)
  {
    assert BoundAt(fs, e.path[0], Local(n, f.types[n])) <= TypeMax(f.types[n]);
  }

  // ----- a returned pointer -----

  /** r = ptrtoint ptr p to i8, returned. */
  function PointerByte(): Func {
    Func([0], [Block([], [Ins(1, PtrCast, Int(8), [Local(0, Ptr)], false, false)], Ret([Local(1, Int(8))]))],
         map[1 := Site(0, 0)], map[0 := Ptr, 1 := Int(8)])
  }

  const FAR: Word := 0xD000_0000

  /** It returns 0xD0000000, and every reader of its bounds is told at most 255. */
  lemma {:induction false} WidePointer(fs: FactSet)
    ensures var f, e := PointerByte(), Exec([0], [map[0 := FAR, 1 := FAR]], 1);
            && Ok(f) && ExecOk(f, e) && Visible(f, e, 0, 1)
            && Evals(e.envs[0], f.blocks[0].term.vals[0], FAR) && BoundAt(fs, 0, f.blocks[0].term.vals[0]) <= 255
  {
    var f, e := PointerByte(), Exec([0], [map[0 := FAR, 1 := FAR]], 1);
    PointerByteOk();
    PointerByteHolds();
    OneBlock(f);
    hide InsHolds, Ok, GraphOf;
    assert BodiesHold(f, e);
    assert Given(f, e);
  }

  lemma {:induction false} PointerByteHolds()
    ensures InsHolds(PointerByte().blocks[0].body[0], map[0 := FAR, 1 := FAR])
  {
    var ins, env := PointerByte().blocks[0].body[0], map[0 := FAR, 1 := FAR];
    assert EvalsAll(env, ins.args, [FAR]);
  }

  /** A graph of one block. */
  lemma {:induction false} OneBlock(f: Func)
    requires |f.blocks| == 1 && f.blocks[0].term.Ret?
    ensures GraphOf(f) == [[]] && Valid(GraphOf(f)) && Path(GraphOf(f), [0]) && Dominates(GraphOf(f), 0, 0)
  {
    assert GraphOf(f) == [[]];
  }

  lemma {:induction false} PointerByteOk()
    ensures Ok(PointerByte())
  {
    OneBlock(PointerByte());
    PointerByteDefined();
    PointerByteDominated();
    PointerByteTyped();
  }

  lemma {:induction false} PointerByteDefined()
    ensures Executions.Defined(PointerByte())
  {
    assert DefinedBy(PointerByte(), 1);
  }

  lemma {:induction false} PointerByteDominated()
    ensures Dominated(PointerByte())
  {
    OneBlock(PointerByte());
  }

  lemma {:induction false} PointerByteTyped()
    ensures Typed(PointerByte()) && ArgsOk(PointerByte())
  {
    var f := PointerByte();
    assert forall b, i :: IsIns(f, b, i) ==> b == 0 && i == 0;
    assert forall n :: DefinedBy(f, n) ==> n == 1;
    hide DefinedBy, IsIns, BoolArg;
  }

  // ----- a loaded i1 -----

  /** br (xor (or (load i1), (v > 4)), true), b1, b2. */
  function LoadedBool(): Func {
    Func([0],
         [Block([],
                [Ins(1, Other, Int(1), [], false, false),
                 Ins(2, Icmp(Ugt), Int(32), [Local(0, Int(32)), Const(4, Int(32))], false, false),
                 Ins(3, Or, Int(1), [Local(1, Int(1)), Local(2, Int(1))], false, false),
                 Ins(4, Xor, Int(1), [Local(3, Int(1)), Const(1, Int(1))], false, false)],
                Br(Local(4, Int(1)), 1, 2)),
          Block([], [], Ret([])), Block([], [], Ret([]))],
         map[1 := Site(0, 0), 2 := Site(0, 1), 3 := Site(0, 2), 4 := Site(0, 3)],
         map[0 := Int(32), 1 := Int(1), 2 := Int(1), 3 := Int(1), 4 := Int(1)])
  }

  /** With 2 loaded and v = 100: the or is 3, its complement 2, and b1 is entered. */
  function LoadedTwo(): Exec {
    var env := map[0 := 100, 1 := 2, 2 := 1, 3 := 3, 4 := 2];
    Exec([0, 1], [env, env], 0)
  }

  lemma {:induction false} LoadedBelow(fs: FactSet)
    ensures Cap(CondBounds(LoadedBool(), fs, map[], Local(2, Int(1)), false, 0, 2), 0) <= 4
  {
    hide BoundAt;
    assert DefinedBy(LoadedBool(), 2);
    FourBounds(fs, Local(0, Int(32)));
  }

  lemma {:induction false} LoadedNeither(fs: FactSet)
    ensures Cap(CondBounds(LoadedBool(), fs, map[], Local(3, Int(1)), false, 0, 3), 0) <= 4
  {
    hide BoundAt;
    var f := LoadedBool();
    assert DefinedBy(f, 1) && DefinedBy(f, 3);
    assert CondBounds(f, fs, map[], Local(1, Int(1)), false, 0, 2) == map[];
    LoadedBelow(fs);
  }

  /** The edge to b1 is taken to prove v <= 4. */
  lemma {:induction false} LoadedEdge(fs: FactSet)
    ensures Cap(EdgeNarrow(LoadedBool(), fs, 0, 1), 0) <= 4
  {
    hide BoundAt;
    Four();
    LoadedNeither(fs);
    assert DefinedBy(LoadedBool(), 4);
    assert Cap(CondBounds(LoadedBool(), fs, map[], Local(4, Int(1)), true, 0, 4), 0) <= 4;
  }

  lemma FourBounds(fs: FactSet, v: Val)
    ensures var c := Const(4, Int(32)); EdgeBounds(Ule, v, c, BoundAt(fs, 0, v), BoundAt(fs, 0, c)).0 <= 4
  {
    Four();
  }

  lemma Four()
    ensures ConstWord(Const(4, Int(32))) == 4 && ConstWord(Const(1, Int(1))) == 1
  {
  }

  lemma {:induction false} LoadedGraph()
    ensures GraphOf(LoadedBool()) == [[1, 2], [], []] && Valid(GraphOf(LoadedBool()))
    ensures Path(GraphOf(LoadedBool()), [0, 1])
    ensures Dominates(GraphOf(LoadedBool()), 0, 0) && Dominates(GraphOf(LoadedBool()), 0, 1)
  {
    var g := GraphOf(LoadedBool());
    assert g == [[1, 2], [], []];
    assert Edge(g, 0, 1);
  }

  lemma {:induction false} LoadedOk()
    ensures Ok(LoadedBool())
  {
    LoadedGraph();
    LoadedDefined();
    LoadedDominated();
    LoadedTyped();
    LoadedArgs();
    hide Executions.Defined, Dominated, Typed, ArgsOk;
  }

  lemma {:induction false} LoadedDefined()
    ensures Executions.Defined(LoadedBool())
  {
    var f := LoadedBool();
    assert DefinedBy(f, 1) && DefinedBy(f, 2) && DefinedBy(f, 3) && DefinedBy(f, 4);
    hide GraphOf;
  }

  lemma {:induction false} LoadedDominated()
    ensures Dominated(LoadedBool())
  {
    var f := LoadedBool();
    forall b, i, k | IsIns(f, b, i) && 0 <= k < |f.blocks[b].body[i].args|
      ensures ValOk(f, f.blocks[b].body[i].args[k], b, i)
    {
      LoadedAt(b, i);
      LoadedVal(i, k);
    }
    LoadedGraph();
    hide GraphOf, Dominates;
    forall b, v | IsBlock(f, b) && v in TermVals(f.blocks[b].term) ensures ValOk(f, v, b, |f.blocks[b].body|) {
      assert b == 0 && v == Local(4, Int(1));
    }
    forall b | IsBlock(f, b) ensures f.blocks[b].phis == [] { }
  }

  lemma {:induction false} LoadedVal(i: int, k: int)
    requires 0 <= i < 4 && 0 <= k < |LoadedBool().blocks[0].body[i].args|
    ensures ValOk(LoadedBool(), LoadedBool().blocks[0].body[i].args[k], 0, i)
  {
    LoadedGraph();
    hide GraphOf, Dominates;
  }

  lemma {:induction false} LoadedDef(n: int)
    requires DefinedBy(LoadedBool(), n)
    ensures 1 <= n <= 4 && DefOf(LoadedBool(), n) == LoadedBool().blocks[0].body[n - 1]
  {
  }

  lemma {:induction false} LoadedAt(b: int, i: int)
    requires IsIns(LoadedBool(), b, i)
    ensures b == 0 && 0 <= i < 4
  {
    hide GraphOf;
  }

  predicate InsTyped(ins: Ins) {
    && |ins.args| >= Arity(ins.op)
    && (forall k :: 0 <= k < |ins.args| && BoolArg(ins, k) ==> ins.args[k].ty == Int(1))
    && (ins.op.Icmp? ==> forall k :: 0 <= k < |ins.args| ==> ins.args[k].ty == ins.ty)
  }

  lemma {:induction false} LoadedIns(i: int)
    requires 0 <= i < 4
    ensures var f := LoadedBool();
            var ins := f.blocks[0].body[i];
            InsTyped(ins) && ins.res == i + 1 && (!ins.op.Icmp? ==> f.types[i + 1] == ins.ty)
  {
    if i == 0 {} else if i == 1 {} else if i == 2 {} else {}
  }

  lemma {:induction false} LoadedTyped()
    ensures Typed(LoadedBool())
  {
    var f := LoadedBool();
    forall b, i | IsIns(f, b, i) ensures |f.blocks[b].body[i].args| >= Arity(f.blocks[b].body[i].op) {
      LoadedAt(b, i);
      LoadedIns(i);
    }
    forall n | DefinedBy(f, n)
      ensures n in f.types && InsTyped(DefOf(f, n)) && (!DefOf(f, n).op.Icmp? ==> f.types[n] == DefOf(f, n).ty)
    {
      LoadedDef(n);
      LoadedIns(n - 1);
    }
    hide BoolArg, Arity;
  }

  lemma {:induction false} LoadedArgs()
    ensures ArgsOk(LoadedBool())
  {
    var f := LoadedBool();
    forall b, i | IsIns(f, b, i)
      ensures |f.blocks[b].body[i].args| >= Arity(f.blocks[b].body[i].op) ==> ArgsTyped(f.blocks[b].body[i])
      ensures forall k :: 0 <= k < |f.blocks[b].body[i].args| ==> GlobalIsPtr(f.blocks[b].body[i].args[k])
    {
      LoadedAt(b, i);
      LoadedArg(i);
    }
    hide GraphOf;
    forall b | IsBlock(f, b) ensures f.blocks[b].phis == [] { }
  }

  lemma {:induction false} LoadedArg(i: int)
    requires 0 <= i < 4
    ensures var ins := LoadedBool().blocks[0].body[i];
            && (|ins.args| >= Arity(ins.op) ==> ArgsTyped(ins))
            && forall k :: 0 <= k < |ins.args| ==> GlobalIsPtr(ins.args[k])
  {
  }

  /** The values of the first visit are what its instructions yield. */
  lemma {:induction false} LoadedHolds(i: int)
    requires 0 <= i < 4
    ensures InsHolds(LoadedBool().blocks[0].body[i], LoadedTwo().envs[0])
  {
    var ins, env := LoadedBool().blocks[0].body[i], LoadedTwo().envs[0];
    var ws := OperandsOf(env, ins.args);
    Four();
    SmallBits();
    assert EvalsAll(env, ins.args, ws);
    assert Yields(ins, ws, Get(env, ins.res));
  }

  lemma SmallBits()
    ensures OrW(2, 1) == 3 && XorW(3, 1) == 2
  {
    assert Words.Or(2, 1) == 2 * Words.Or(1, 0) + 1 && Words.Or(1, 0) == 2 * Words.Or(0, 0) + 1;
    assert Words.Xor(3, 1) == 2 * Words.Xor(1, 0) && Words.Xor(1, 0) == 2 * Words.Xor(0, 0) + 1;
  }

  /** The byte 2 is a word its type's storage holds; with it the edge's bound on v is false. */
  lemma {:induction false} LoadedByte(fs: FactSet)
    ensures var f, e := LoadedBool(), LoadedTwo();
            && Ok(f) && ExecOk(f, e) && !Proper(f, e) && e.path == [0, 1]
            && Cap(EdgeNarrow(f, fs, 0, 1), 0) <= 4 && Get(e.envs[1], 0) == 100
  {
    LoadedOk();
    LoadedGraph();
    LoadedEdge(fs);
    LoadedExec();
    var f, e := LoadedBool(), LoadedTwo();
    hide Ok, ExecOk, GraphOf, Dominates, EdgeNarrow;
    assert Visible(f, e, 0, 1) && Foreign(f, 1);
  }

  lemma {:induction false} LoadedExec()
    ensures ExecOk(LoadedBool(), LoadedTwo())
  {
    LoadedGraph();
    LoadedBodies();
    LoadedRest();
    hide Carries, PhisHold, BodiesHold, EdgesHold, Given, GraphOf, Path;
  }

  lemma {:induction false} LoadedBodies()
    ensures BodiesHold(LoadedBool(), LoadedTwo())
  {
    var f, e := LoadedBool(), LoadedTwo();
    forall t, i | Visit(e, t) && IsIns(f, e.path[t], i) ensures InsHolds(f.blocks[e.path[t]].body[i], e.envs[t]) {
      LoadedAt(e.path[t], i);
      LoadedHolds(i);
    }
  }

  lemma {:induction false} LoadedRest()
    ensures var f, e := LoadedBool(), LoadedTwo();
            Carries(f, e) && PhisHold(f, e) && EdgesHold(f, e) && Given(f, e)
  {
    var f, e := LoadedBool(), LoadedTwo();
    hide GraphOf, Dominates;
    assert Evals(e.envs[0], f.blocks[0].term.cond, 2);
    assert forall t :: Visit(e, t) ==> e.envs[t] == e.envs[0];
    forall t, n | Visible(f, e, t, n) && n in f.types && Foreign(f, n)
      ensures Get(e.envs[t], n) <= TypeMax(f.types[n])
    {
      if n in f.def { LoadedDef(n); LoadedIns(n - 1); }
    }
  }
}
