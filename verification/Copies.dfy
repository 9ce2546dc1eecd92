/** Running an SSA function on coloured words with phi copies on its edges (host/dmacc/func.go):
    every read sees the value its definition produced. */
module Copies {
  import opened Words
  import opened Cfg
  import opened Slots

  // ----- the SSA machine -----

  type Env = map<int, Word>

  function Get(env: Env, n: int): Word {
    if n in env then env[n] else 0
  }

  function Value(env: Env, s: Src): Word {
    match s
    case Const(w) => w
    case Local(n) => Get(env, n)
  }

  function Values(env: Env, srcs: seq<Src>): seq<Word> {
    seq(|srcs|, i requires 0 <= i < |srcs| => Value(env, srcs[i]))
  }

  function InsEnv(ins: Ins, env: Env, world: int): (Env, int) {
    match ins
    case Op(res, srcs, _, f) =>
      var r := f(Values(env, srcs), world);
      (env[res := r.0], r.1)
    case Fwd(res, src) => (env[res := Value(env, src)], world)
  }

  /** The first k instructions of a body. */
  function BodyEnv(body: seq<Ins>, k: nat, env: Env, world: int): (Env, int)
    requires k <= |body|
    decreases k
  {
    if k == 0 then (env, world)
    else
      var r := BodyEnv(body, k - 1, env, world);
      InsEnv(body[k - 1], r.0, r.1)
  }

  /** All phis of a block take their operands at once. */
  function PhisEnv(phis: seq<Phi>, k: nat, b: int, env: Env): Env
    requires k <= |phis|
    decreases k
  {
    if k == 0 then env
    else PhisEnv(phis, k - 1, b, env)[phis[k - 1].res := Incoming(phis[k - 1], b, env)]
  }

  function Incoming(phi: Phi, b: int, env: Env): Word {
    if b in phi.args then Value(env, phi.args[b]) else 0
  }

  datatype State = State(path: seq<int>, env: Env, world: int) | Returned(v: Word, final: int)

  ghost predicate Going(f: Func, s: State) {
    s.State? && Path(GraphOf(f), s.path)
  }

  /** One block and the edge it leaves by. */
  ghost function StepEnv(f: Func, s: State): State
    requires Going(f, s)
  {
    var body := f.blocks[Last(s.path)].body;
    var r := BodyEnv(body, |body|, s.env, s.world);
    LeaveEnv(f, s.path, r.0, r.1)
  }

  ghost function LeaveEnv(f: Func, path: seq<int>, env: Env, world: int): State
    requires Path(GraphOf(f), path)
  {
    match f.blocks[Last(path)].term
    case Ret(v) => Returned(Value(env, v), world)
    case Jump(to) => EnterEnv(f, path, to, env, world)
    case Branch(c, tos, pick) =>
      var i := pick(Value(env, c));
      EnterEnv(f, path, if 0 <= i < |tos| then tos[i] else 0, env, world)
  }

  ghost function EnterEnv(f: Func, path: seq<int>, to: int, env: Env, world: int): State
    requires Path(GraphOf(f), path)
  {
    var phis := if IsBlock(f, to) then f.blocks[to].phis else [];
    State(path + [to], PhisEnv(phis, |phis|, Last(path), env), world)
  }

  // ----- the machine on words -----

  type Cells = map<Slot, Word>

  function Read(ws: Cells, s: Slot): Word {
    if s in ws then ws[s] else 0
  }

  ghost function Load(al: Alloc, ws: Cells, s: Src): Word {
    match s
    case Const(w) => w
    case Local(n) => Read(ws, WordOf(al, n))
  }

  /** Code lowered at t reads the word its operand resolves to there. */
  ghost function FetchAt(f: Func, al: Alloc, ws: Cells, s: Src, t: Site): Word {
    Load(al, ws, ResolveAt(f, s, t))
  }

  function Size(f: Func, b: int): nat
    requires IsBlock(f, b)
  {
    |f.blocks[b].body|
  }

  /** Where the terminator of b and the copies of its edges are lowered. */
  function End(f: Func, b: int): Site
    requires IsBlock(f, b)
  {
    Site(b, Size(f, b))
  }

  ghost function Fetches(f: Func, al: Alloc, ws: Cells, srcs: seq<Src>, t: Site): seq<Word> {
    seq(|srcs|, i requires 0 <= i < |srcs| => FetchAt(f, al, ws, srcs[i], t))
  }

  ghost function InsWords(f: Func, al: Alloc, t: Site, ws: Cells, world: int): (Cells, int)
    requires IsIns(f, t.b, t.i)
  {
    match f.blocks[t.b].body[t.i]
    case Op(res, srcs, _, g) =>
      var r := g(Fetches(f, al, ws, srcs, t), world);
      (ws[WordOf(al, res) := r.0], r.1)
    case Fwd(res, src) =>
      (if Alias(f, res) then ws else ws[WordOf(al, res) := FetchAt(f, al, ws, src, t)], world)
  }

  ghost function BodyWords(f: Func, al: Alloc, b: int, k: nat, ws: Cells, world: int): (Cells, int)
    requires IsBlock(f, b) && k <= Size(f, b)
    decreases k
  {
    if k == 0 then (ws, world)
    else
      var r := BodyWords(f, al, b, k - 1, ws, world);
      InsWords(f, al, Site(b, k - 1), r.0, r.1)
  }

  ghost function Target(f: Func, al: Alloc, c: int, n: int): Slot {
    if Direct(f, c) then WordOf(al, n) else Sh(n)
  }

  /** The copies of the edge b -> c, one after the other: into phi words when c's phis are direct,
      into shadows otherwise. */
  ghost function EdgeCopies(f: Func, al: Alloc, b: int, c: int, k: nat, ws: Cells): Cells
    requires IsBlock(f, b) && IsBlock(f, c) && k <= |f.blocks[c].phis|
    decreases k
  {
    if k == 0 then ws
    else
      var m := EdgeCopies(f, al, b, c, k - 1, ws);
      var phi := f.blocks[c].phis[k - 1];
      if b in phi.args then m[Target(f, al, c, phi.res) := FetchAt(f, al, m, phi.args[b], End(f, b))] else m
  }

  ghost function AllCopies(f: Func, al: Alloc, b: int, c: int, ws: Cells): Cells
    requires IsBlock(f, b) && IsBlock(f, c)
  {
    EdgeCopies(f, al, b, c, |f.blocks[c].phis|, ws)
  }

  /** Before a multi-way branch: the copies of its shadow-mode successors, each once. */
  ghost function Inline(f: Func, al: Alloc, b: int, tos: seq<int>, k: nat, ws: Cells): Cells
    requires IsBlock(f, b) && k <= |tos|
    decreases k
  {
    if k == 0 then ws
    else
      var m := Inline(f, al, b, tos, k - 1, ws);
      var c := tos[k - 1];
      if c in tos[..k - 1] || !IsBlock(f, c) || Direct(f, c) then m else AllCopies(f, al, b, c, m)
  }

  /** The head of a shadow-mode block latches its shadows. */
  ghost function Latches(f: Func, al: Alloc, c: int, k: nat, ws: Cells): Cells
    requires IsBlock(f, c) && k <= |f.blocks[c].phis|
    decreases k
  {
    if k == 0 then ws
    else
      var m := Latches(f, al, c, k - 1, ws);
      var n := f.blocks[c].phis[k - 1].res;
      m[WordOf(al, n) := Read(m, Sh(n))]
  }

  ghost function Head(f: Func, al: Alloc, c: int, ws: Cells): Cells {
    if !IsBlock(f, c) || Direct(f, c) then ws else Latches(f, al, c, |f.blocks[c].phis|, ws)
  }

  /** A branch on a constant is lowered as a jump. */
  predicate Plain(t: Term) {
    t.Jump? || (t.Branch? && t.cond.Const? && |t.tos| == 2)
  }

  /** The words a terminator's own operand is read from: shadows of the successors come first. */
  ghost function AtTerm(f: Func, al: Alloc, b: int, ws: Cells): Cells
    requires IsBlock(f, b)
  {
    var t := f.blocks[b].term;
    if Plain(t) || t.Ret? then ws else Inline(f, al, b, t.tos, |t.tos|, ws)
  }

  /** Leaving b for c: a single edge has its copies inline, a branch to a direct-mode block has
      them on a stub; then the head of c. */
  ghost function Crossed(f: Func, al: Alloc, b: int, c: int, ws: Cells): Cells
    requires IsBlock(f, b) && IsBlock(f, c)
  {
    var m := AtTerm(f, al, b, ws);
    Head(f, al, c, if Plain(f.blocks[b].term) || Direct(f, c) then AllCopies(f, al, b, c, m) else m)
  }

  datatype Machine = Machine(b: int, ws: Cells, world: int) | Halted(v: Word, final: int)

  ghost function StepWords(f: Func, al: Alloc, m: Machine): Machine
    requires m.Machine? && IsBlock(f, m.b)
  {
    var r := BodyWords(f, al, m.b, Size(f, m.b), m.ws, m.world);
    LeaveWords(f, al, m.b, r.0, r.1)
  }

  ghost function LeaveWords(f: Func, al: Alloc, b: int, ws: Cells, world: int): Machine
    requires IsBlock(f, b)
  {
    match f.blocks[b].term
    case Ret(v) => Halted(FetchAt(f, al, ws, v, End(f, b)), world)
    case Jump(to) => Arrive(f, al, b, to, ws, world)
    case Branch(c, tos, pick) =>
      var i := pick(FetchAt(f, al, AtTerm(f, al, b, ws), c, End(f, b)));
      Arrive(f, al, b, if 0 <= i < |tos| then tos[i] else 0, ws, world)
  }

  ghost function Arrive(f: Func, al: Alloc, b: int, to: int, ws: Cells, world: int): Machine
    requires IsBlock(f, b)
  {
    Machine(to, if IsBlock(f, to) then Crossed(f, al, b, to, ws) else ws, world)
  }

  // ----- what the words hold -----

  /** Values whose words must be right at instruction i of block b. */
  ghost predicate Avail(f: Func, b: int, i: int, n: int) {
    n !in f.def || LiveIn(f, n, b) || (f.def[n].b == b && f.def[n].i < i)
  }

  /** With every alias registered. */
  ghost function Fetch(f: Func, al: Alloc, ws: Cells, s: Src): Word {
    Load(al, ws, Resolve(f, s))
  }

  /** What control can reach is lowered after the aliases it reads. */
  lemma {:induction false} FetchSame(f: Func, al: Alloc, ws: Cells, s: Src, p: seq<int>, i: int)
    requires Ok(f) && Path(GraphOf(f), p) && (s.Local? ==> ReadsAt(f, Last(p), i, s.n))
    ensures FetchAt(f, al, ws, s, Site(Last(p), i)) == Fetch(f, al, ws, s)
  {
    assert PathTo(GraphOf(f), p, Last(p));
    ReadResolves(f, s, Last(p), i);
  }

  ghost predicate Right(f: Func, al: Alloc, b: int, i: int, env: Env, ws: Cells) {
    forall n :: Avail(f, b, i, n) ==> Fetch(f, al, ws, Local(n)) == Get(env, n)
  }

  /** A value available in a block occupies its word there. */
  lemma {:induction false} AvailOccupies(f: Func, al: Alloc, p: seq<int>, i: int, n: int, r: int)
    requires Ok(f) && AllocOk(f, al) && Path(GraphOf(f), p) && Avail(f, Last(p), i, n)
    requires Resolve(f, Local(n)) == Local(r)
    ensures Occupies(f, al, r, Last(p))
  {
    assert PathTo(GraphOf(f), p, Last(p));
    if n in f.def {
      if LiveIn(f, n, Last(p)) {
        LiveOccupies(f, al, n, r, Last(p), p);
      } else {
        DefOccupies(f, al, n, r);
      }
    }
  }

  /** An available value does not resolve to one defined later in the block. */
  lemma {:induction false} NotLater(f: Func, al: Alloc, p: seq<int>, i: int, n: int, m: int)
    requires Ok(f) && AllocOk(f, al) && Path(GraphOf(f), p) && Avail(f, Last(p), i, n) && n != m
    requires m in f.def && f.def[m].b == Last(p) && f.def[m].i >= i
    ensures Resolve(f, Local(n)) != Local(m)
  {
    assert PathTo(GraphOf(f), p, Last(p));
    if Resolve(f, Local(n)) == Local(m) {
      if LiveIn(f, n, Last(p)) {
        LiveOccupies(f, al, n, m, Last(p), p);
      } else {
        AliasOf(f, n, m);
      }
      assert false;
    }
  }

  /** Writing the word of a value defined at i leaves every available value readable. */
  lemma {:induction false} WriteKeeps(f: Func, al: Alloc, p: seq<int>, i: int, m: int, n: int, ws: Cells, v: Word)
    requires Ok(f) && AllocOk(f, al) && Path(GraphOf(f), p) && Avail(f, Last(p), i, n) && n != m
    requires m in f.def && f.def[m].b == Last(p) && f.def[m].i >= i && !Alias(f, m)
    ensures Fetch(f, al, ws[WordOf(al, m) := v], Local(n)) == Fetch(f, al, ws, Local(n))
  {
    assert PathTo(GraphOf(f), p, Last(p));
    if Resolve(f, Local(n)).Local? {
      var r := Resolve(f, Local(n)).n;
      NotLater(f, al, p, i, n, m);
      AvailOccupies(f, al, p, i, n, r);
      DefOccupies(f, al, m, m);
      Distinct(f, al, r, m, Last(p));
    }
  }

  // ----- inside a block -----

  /** A value read in b is available there: live into b, or defined above. */
  lemma {:induction false} UsedAvail(f: Func, b: int, i: int, n: int)
    requires Ok(f) && UsedIn(f, b, n) && (n in f.def && f.def[n].b == b ==> f.def[n].i < i)
    ensures Avail(f, b, i, n)
  {
    if n in f.def && f.def[n].b != b {
      assert ChargedBy(f, n, b, 0);
      assert LiveTrail(f, n, b, [b]);
    }
  }

  lemma {:induction false} OperandRight(f: Func, al: Alloc, p: seq<int>, i: int, env: Env, ws: Cells, s: Src)
    requires Ok(f) && Path(GraphOf(f), p) && Right(f, al, Last(p), i, env, ws)
    requires s.Local? ==> InsUses(f, Last(p), i, s.n)
    ensures Fetch(f, al, ws, s) == Value(env, s) == FetchAt(f, al, ws, s, Site(Last(p), i))
  {
    if s.Local? { UsedAvail(f, Last(p), i, s.n); }
    FetchSame(f, al, ws, s, p, i);
  }

  lemma {:induction false} OperandsRight(f: Func, al: Alloc, p: seq<int>, i: int, env: Env, ws: Cells)
    requires Ok(f) && Path(GraphOf(f), p) && IsIns(f, Last(p), i) && Right(f, al, Last(p), i, env, ws)
    ensures var srcs := Operands(f.blocks[Last(p)].body[i]);
            Fetches(f, al, ws, srcs, Site(Last(p), i)) == Values(env, srcs)
  {
    hide Ok, Right, FetchAt;
    var srcs := Operands(f.blocks[Last(p)].body[i]);
    forall j | 0 <= j < |srcs| ensures FetchAt(f, al, ws, srcs[j], Site(Last(p), i)) == Value(env, srcs[j]) {
      OperandRight(f, al, p, i, env, ws, srcs[j]);
    }
  }

  /** No operand of an instruction shares a word with its result. */
  lemma {:induction false} ResultApart(f: Func, al: Alloc, p: seq<int>, i: int, n: int, r: int)
    requires Ok(f) && AllocOk(f, al) && Path(GraphOf(f), p) && InsUses(f, Last(p), i, n)
    requires ResolveAt(f, Local(n), Site(Last(p), i)) == Local(r)
    ensures WordOf(al, r) != WordOf(al, f.blocks[Last(p)].body[i].res)
  {
    var b := Last(p);
    var m := f.blocks[b].body[i].res;
    assert PathTo(GraphOf(f), p, b) && f.def[m] == Site(b, i);
    UsedAvail(f, b, i, n);
    ReadResolves(f, Local(n), b, i);
    NotLater(f, al, p, i, n, m);
    AvailOccupies(f, al, p, i, n, r);
    assert Occupies(f, al, m, b);
    Distinct(f, al, r, m, b);
  }

  /** A definition writes its word. */
  lemma {:induction false} DefRight(f: Func, al: Alloc, p: seq<int>, i: int, env: Env, ws: Cells, m: int, v: Word)
    requires Ok(f) && AllocOk(f, al) && Path(GraphOf(f), p) && Right(f, al, Last(p), i, env, ws)
    requires i >= 0 && m in f.def && f.def[m] == Site(Last(p), i) && !Alias(f, m)
    ensures Right(f, al, Last(p), i + 1, env[m := v], ws[WordOf(al, m) := v])
  {
    var ws', env' := ws[WordOf(al, m) := v], env[m := v];
    forall n | Avail(f, Last(p), i + 1, n) ensures Fetch(f, al, ws', Local(n)) == Get(env', n) {
      if n != m {
        if n in f.def { OneSite(f, n, m); }
        WriteKeeps(f, al, p, i, m, n, ws, v);
      }
    }
  }

  lemma {:induction false} OneSite(f: Func, n: int, m: int)
    requires Ok(f) && n in f.def && m in f.def && n != m && f.def[m].i >= 0
    ensures f.def[n] != f.def[m]
  {
  }

  /** An alias writes nothing: its source already holds the word. */
  lemma {:induction false} AliasRight(f: Func, al: Alloc, p: seq<int>, i: int, env: Env, ws: Cells, m: int)
    requires Ok(f) && AllocOk(f, al) && Path(GraphOf(f), p) && Right(f, al, Last(p), i, env, ws)
    requires Alias(f, m) && f.def[m] == Site(Last(p), i)
    ensures Right(f, al, Last(p), i + 1, env[m := Value(env, SourceOf(f, m))], ws)
  {
    var s := SourceOf(f, m);
    var env' := env[m := Value(env, s)];
    OperandRight(f, al, p, i, env, ws, s);
    assert Resolve(f, Local(m)) == ResolveAt(f, s, f.def[m]);
    forall n | Avail(f, Last(p), i + 1, n) ensures Fetch(f, al, ws, Local(n)) == Get(env', n) {
      if n != m && n in f.def { OneSite(f, n, m); }
    }
  }

  lemma {:induction false} InsRight(f: Func, al: Alloc, p: seq<int>, i: nat, env: Env, ws: Cells, world: int)
    requires Ok(f) && AllocOk(f, al) && Path(GraphOf(f), p) && IsIns(f, Last(p), i) && Right(f, al, Last(p), i, env, ws)
    ensures var ins := f.blocks[Last(p)].body[i];
            var e, w := InsEnv(ins, env, world), InsWords(f, al, Site(Last(p), i), ws, world);
            e.1 == w.1 && Right(f, al, Last(p), i + 1, e.0, w.0)
  {
    var ins := f.blocks[Last(p)].body[i];
    assert f.def[ins.res] == Site(Last(p), i);
    OperandsRight(f, al, p, i, env, ws);
    match ins
    case Op(res, srcs, _, g) =>
      DefRight(f, al, p, i, env, ws, res, g(Values(env, srcs), world).0);
    case Fwd(res, src) =>
      OperandRight(f, al, p, i, env, ws, src);
      if Alias(f, res) {
        AliasRight(f, al, p, i, env, ws, res);
      } else {
        DefRight(f, al, p, i, env, ws, res, Value(env, src));
      }
  }

  lemma {:induction false} BodyRight(f: Func, al: Alloc, p: seq<int>, k: nat, env: Env, ws: Cells, world: int)
    requires Ok(f) && AllocOk(f, al) && Path(GraphOf(f), p) && k <= |f.blocks[Last(p)].body|
    requires Right(f, al, Last(p), 0, env, ws)
    ensures var body := f.blocks[Last(p)].body;
            var e, w := BodyEnv(body, k, env, world), BodyWords(f, al, Last(p), k, ws, world);
            e.1 == w.1 && Right(f, al, Last(p), k, e.0, w.0)
    decreases k
  {
    hide Ok, AllocOk, Right;
    if k > 0 {
      BodyRight(f, al, p, k - 1, env, ws, world);
      var body := f.blocks[Last(p)].body;
      var e, w := BodyEnv(body, k - 1, env, world), BodyWords(f, al, Last(p), k - 1, ws, world);
      InsRight(f, al, p, k - 1, e.0, w.0, e.1);
    }
  }

  // ----- across an edge -----

  /** What is live into c is available at the end of every block before it. */
  lemma {:induction false} CarriedAvail(f: Func, b: int, c: int, n: int)
    requires Ok(f) && Edge(GraphOf(f), b, c) && (n !in f.def || LiveIn(f, n, c))
    ensures Avail(f, b, Size(f, b), n) && !PhiOf(f, c, n)
  {
    if n in f.def {
      var q :| LiveTrail(f, n, c, q);
      if f.def[n].b != b {
        var r := [b] + q;
        assert Trail(GraphOf(f), r) by {
          forall i | 0 < i < |r|
            ensures Edge(GraphOf(f), r[i - 1], r[i])
          {
            assert i > 1 ==> r[i] == q[i - 1] && r[i - 1] == q[i - 2];
          }
        }
        assert LiveTrail(f, n, b, r);
      }
    }
  }

  /** A phi operand is available at the end of its edge's block. */
  lemma {:induction false} IncomingRight(f: Func, al: Alloc, p: seq<int>, c: int, j: int, env: Env, ws: Cells,
                                         ws': Cells)
    requires Ok(f) && Path(GraphOf(f), p) && IsPhi(f, c, j) && Edge(GraphOf(f), Last(p), c)
    requires Last(p) in f.blocks[c].phis[j].args && Right(f, al, Last(p), Size(f, Last(p)), env, ws)
    requires forall n :: Avail(f, Last(p), Size(f, Last(p)), n) && (Direct(f, c) ==> !PhiOf(f, c, n)) ==>
                           Fetch(f, al, ws', Local(n)) == Fetch(f, al, ws, Local(n))
    ensures FetchAt(f, al, ws', f.blocks[c].phis[j].args[Last(p)], End(f, Last(p)))
         == Incoming(f.blocks[c].phis[j], Last(p), env)
  {
    var b := Last(p);
    var s := f.blocks[c].phis[j].args[b];
    if s.Local? {
      assert EdgeUses(f, c, j, b, s.n);
      UsedAvail(f, b, Size(f, b), s.n);
      assert ReadsAt(f, b, Size(f, b), s.n);
    }
    FetchSame(f, al, ws', s, p, Size(f, b));
  }

  lemma {:induction false} EdgeArg(f: Func, b: int, c: int, j: int)
    requires Ok(f) && Edge(GraphOf(f), b, c) && IsPhi(f, c, j)
    ensures b in f.blocks[c].phis[j].args
  {
  }

  /** Nothing is an alias of a phi. */
  lemma {:induction false} PhiNotAliased(f: Func, n: int, r: int)
    requires Ok(f) && Resolve(f, Local(n)) == Local(r) && n != r && r in f.def
    ensures f.def[r].i != -1
    decreases if n in f.def then f.def[n].b else 0, if n in f.def then f.def[n].i + 1 else 0
  {
    assert Resolve(f, Local(n)) == ResolveAt(f, SourceOf(f, n), f.def[n]);
    var s := SourceOf(f, n).n;
    if s != r { PhiNotAliased(f, s, r); }
  }

  /** An edge copy into a phi word leaves everything available at the end of b readable. */
  lemma {:induction false} CopyKeeps(f: Func, al: Alloc, p: seq<int>, c: int, j: int, n: int, ws: Cells, v: Word)
    requires Ok(f) && AllocOk(f, al) && Path(GraphOf(f), p) && Edge(GraphOf(f), Last(p), c) && IsPhi(f, c, j)
    requires Direct(f, c)
    requires Avail(f, Last(p), Size(f, Last(p)), n) && !PhiOf(f, c, n)
    ensures var m := f.blocks[c].phis[j].res;
            Fetch(f, al, ws[WordOf(al, m) := v], Local(n)) == Fetch(f, al, ws, Local(n))
  {
    var m := f.blocks[c].phis[j].res;
    if Resolve(f, Local(n)).Local? {
      var r := Resolve(f, Local(n)).n;
      if n != r && r in f.def { PhiNotAliased(f, n, r); }
      AvailOccupies(f, al, p, Size(f, Last(p)), n, r);
      assert EdgeWrites(f, m, Last(p));
      Distinct(f, al, r, m, Last(p));
    }
  }

  /** Two phis of a block have different words. */
  lemma {:induction false} PhisApart(f: Func, al: Alloc, c: int, j: int, k: int)
    requires Ok(f) && AllocOk(f, al) && IsPhi(f, c, j) && IsPhi(f, c, k) && j != k
    ensures WordOf(al, f.blocks[c].phis[j].res) != WordOf(al, f.blocks[c].phis[k].res)
  {
    Distinct(f, al, f.blocks[c].phis[j].res, f.blocks[c].phis[k].res, c);
  }

  /** Copies into direct phi words, one at a time, are a parallel assignment. */
  lemma {:induction false} DirectCopies(f: Func, al: Alloc, p: seq<int>, c: int, k: nat, env: Env, ws: Cells)
    requires Ok(f) && AllocOk(f, al) && Path(GraphOf(f), p) && Edge(GraphOf(f), Last(p), c) && Direct(f, c)
    requires IsBlock(f, c) && k <= |f.blocks[c].phis| && Right(f, al, Last(p), Size(f, Last(p)), env, ws)
    ensures var m := EdgeCopies(f, al, Last(p), c, k, ws);
            && (forall n :: Avail(f, Last(p), Size(f, Last(p)), n) && !PhiOf(f, c, n) ==>
                              Fetch(f, al, m, Local(n)) == Fetch(f, al, ws, Local(n)))
            && (forall j :: 0 <= j < k ==>
                              Read(m, WordOf(al, f.blocks[c].phis[j].res))
                              == Incoming(f.blocks[c].phis[j], Last(p), env))
    decreases k
  {
    hide Ok, AllocOk, Right, Avail, Resolve, WordOf, Fetch, FetchAt;
    if k > 0 {
      var b := Last(p);
      DirectCopies(f, al, p, c, k - 1, env, ws);
      var m := EdgeCopies(f, al, b, c, k - 1, ws);
      var phi := f.blocks[c].phis[k - 1];
      EdgeArg(f, b, c, k - 1);
      IncomingRight(f, al, p, c, k - 1, env, ws, m);
      var v := FetchAt(f, al, m, phi.args[b], End(f, b));
      var m' := m[WordOf(al, phi.res) := v];
      assert EdgeCopies(f, al, b, c, k, ws) == m';
      forall n | Avail(f, b, Size(f, b), n) && !PhiOf(f, c, n)
        ensures Fetch(f, al, m', Local(n)) == Fetch(f, al, ws, Local(n))
      {
        CopyKeeps(f, al, p, c, k - 1, n, m, v);
      }
      forall j | 0 <= j < k
        ensures Read(m', WordOf(al, f.blocks[c].phis[j].res)) == Incoming(f.blocks[c].phis[j], b, env)
      {
        if j < k - 1 { PhisApart(f, al, c, j, k - 1); }
      }
    }
  }

  /** Nothing but shadows of c's phis differs. */
  ghost predicate SameButShadows(f: Func, c: int, ws: Cells, ws': Cells) {
    forall s: Slot :: !(s.Sh? && PhiOf(f, c, s.n)) ==> Read(ws', s) == Read(ws, s)
  }

  lemma {:induction false} ShadowsUnread(f: Func, al: Alloc, c: int, ws: Cells, ws': Cells, s: Src)
    requires Ok(f) && AllocOk(f, al) && SameButShadows(f, c, ws, ws')
    ensures Fetch(f, al, ws', s) == Fetch(f, al, ws, s)
  {
  }

  /** Copies into shadows. */
  lemma {:induction false} ShadowCopies(f: Func, al: Alloc, p: seq<int>, c: int, k: nat, env: Env, ws: Cells)
    requires Ok(f) && AllocOk(f, al) && Path(GraphOf(f), p) && Edge(GraphOf(f), Last(p), c) && !Direct(f, c)
    requires IsBlock(f, c) && k <= |f.blocks[c].phis| && Right(f, al, Last(p), Size(f, Last(p)), env, ws)
    ensures var m := EdgeCopies(f, al, Last(p), c, k, ws);
            && SameButShadows(f, c, ws, m)
            && (forall j :: 0 <= j < k ==>
                  Read(m, Sh(f.blocks[c].phis[j].res)) == Incoming(f.blocks[c].phis[j], Last(p), env))
    decreases k
  {
    hide AllocOk, Right, Resolve, Fetch, FetchAt, Lowered, Dominated, Avail, WordOf;
    if k > 0 {
      var b := Last(p);
      ShadowCopies(f, al, p, c, k - 1, env, ws);
      var m := EdgeCopies(f, al, b, c, k - 1, ws);
      var phi := f.blocks[c].phis[k - 1];
      assert IsPhi(f, c, k - 1);
      EdgeArg(f, b, c, k - 1);
      forall n
        ensures Fetch(f, al, m, Local(n)) == Fetch(f, al, ws, Local(n))
      {
        ShadowsUnread(f, al, c, ws, m, Local(n));
      }
      IncomingRight(f, al, p, c, k - 1, env, ws, m);
      forall j | 0 <= j < k - 1 ensures f.blocks[c].phis[j].res != phi.res { assert IsPhi(f, c, j); }
    }
  }

  lemma {:induction false} ShadowsRight(f: Func, al: Alloc, b: int, c: int, env: Env, ws: Cells, ws': Cells)
    requires Ok(f) && AllocOk(f, al) && IsBlock(f, b) && SameButShadows(f, c, ws, ws')
    requires Right(f, al, b, Size(f, b), env, ws)
    ensures Right(f, al, b, Size(f, b), env, ws')
  {
    forall n | Avail(f, b, Size(f, b), n)
      ensures Fetch(f, al, ws', Local(n)) == Get(env, n)
    {
      ShadowsUnread(f, al, c, ws, ws', Local(n));
    }
  }

  ghost predicate Shadowed(f: Func, b: int, c: int, env: Env, ws: Cells) {
    IsBlock(f, c) && forall j :: IsPhi(f, c, j) ==>
                                   Read(ws, Sh(f.blocks[c].phis[j].res)) == Incoming(f.blocks[c].phis[j], b, env)
  }

  /** Shadows of one block survive copies into another's. */
  lemma {:induction false} ShadowsApart(f: Func, b: int, c: int, d: int, env: Env, ws: Cells, ws': Cells)
    requires Ok(f) && Shadowed(f, b, c, env, ws) && SameButShadows(f, d, ws, ws') && c != d
    ensures Shadowed(f, b, c, env, ws')
  {
  }

  /** All of an edge's shadow copies. */
  lemma {:induction false} AllShadows(f: Func, al: Alloc, p: seq<int>, c: int, env: Env, ws: Cells)
    requires Ok(f) && AllocOk(f, al) && Path(GraphOf(f), p) && Edge(GraphOf(f), Last(p), c) && !Direct(f, c)
    requires IsBlock(f, c) && Right(f, al, Last(p), Size(f, Last(p)), env, ws)
    ensures var b, m := Last(p), AllCopies(f, al, Last(p), c, ws);
            SameButShadows(f, c, ws, m) && Right(f, al, b, Size(f, b), env, m) && Shadowed(f, b, c, env, m)
  {
    hide Ok, AllocOk, Right, SameButShadows, EdgeCopies, Direct;
    ShadowCopies(f, al, p, c, |f.blocks[c].phis|, env, ws);
    ShadowsRight(f, al, Last(p), c, env, ws, AllCopies(f, al, Last(p), c, ws));
  }

  /** The shadow-mode blocks among the first k successors have their shadows loaded. */
  ghost predicate Preloaded(f: Func, b: int, tos: seq<int>, k: nat, env: Env, ws: Cells)
    requires k <= |tos|
  {
    forall i :: 0 <= i < k && !Direct(f, tos[i]) ==> Shadowed(f, b, tos[i], env, ws)
  }

  lemma {:induction false} PreloadOne(f: Func, b: int, tos: seq<int>, k: nat, env: Env, ws: Cells, ws': Cells)
    requires Ok(f) && 0 < k <= |tos| && Preloaded(f, b, tos, k - 1, env, ws) && tos[k - 1] !in tos[..k - 1]
    requires SameButShadows(f, tos[k - 1], ws, ws') && Shadowed(f, b, tos[k - 1], env, ws')
    ensures Preloaded(f, b, tos, k, env, ws')
  {
    hide Ok, Direct, SameButShadows, Shadowed;
    forall i | 0 <= i < k && !Direct(f, tos[i]) ensures Shadowed(f, b, tos[i], env, ws') {
      if i < k - 1 {
        assert tos[..k - 1][i] == tos[i];
        ShadowsApart(f, b, tos[i], tos[k - 1], env, ws, ws');
      }
    }
  }

  lemma {:induction false} PreloadSame(f: Func, b: int, tos: seq<int>, k: nat, env: Env, ws: Cells)
    requires 0 < k <= |tos| && Preloaded(f, b, tos, k - 1, env, ws)
    requires tos[k - 1] in tos[..k - 1] || Direct(f, tos[k - 1])
    ensures Preloaded(f, b, tos, k, env, ws)
  {
    hide Direct, Shadowed;
    if !Direct(f, tos[k - 1]) {
      var i :| 0 <= i < k - 1 && tos[..k - 1][i] == tos[k - 1];
      assert tos[i] == tos[k - 1];
    }
  }

  /** Before a branch: every shadow-mode successor's shadows are loaded, and no value word moved. */
  lemma {:induction false} InlineRight(f: Func, al: Alloc, p: seq<int>, tos: seq<int>, k: nat, env: Env, ws: Cells)
    requires Ok(f) && AllocOk(f, al) && Path(GraphOf(f), p) && k <= |tos|
    requires forall i :: 0 <= i < |tos| ==> Edge(GraphOf(f), Last(p), tos[i]) && IsBlock(f, tos[i])
    requires Right(f, al, Last(p), Size(f, Last(p)), env, ws)
    ensures var b, m := Last(p), Inline(f, al, Last(p), tos, k, ws);
            Right(f, al, b, Size(f, b), env, m) && Preloaded(f, b, tos, k, env, m)
    decreases k
  {
    var b := Last(p);
    assert IsBlock(f, b);
    hide Ok, AllocOk, Right, GraphOf, Direct, SameButShadows, AllCopies, Shadowed, Edge, Trail, Preloaded;
    if k > 0 {
      InlineRight(f, al, p, tos, k - 1, env, ws);
      var m := Inline(f, al, b, tos, k - 1, ws);
      var c := tos[k - 1];
      if c !in tos[..k - 1] && !Direct(f, c) {
        AllShadows(f, al, p, c, env, m);
        PreloadOne(f, b, tos, k, env, m, AllCopies(f, al, b, c, m));
      } else {
        PreloadSame(f, b, tos, k, env, m);
      }
    } else {
      NonePreloaded(f, b, tos, env, ws);
    }
  }

  lemma {:induction false} NonePreloaded(f: Func, b: int, tos: seq<int>, env: Env, ws: Cells)
    ensures Preloaded(f, b, tos, 0, env, ws)
  {
  }

  /** The head latch. */
  lemma {:induction false} LatchesRight(f: Func, al: Alloc, p: seq<int>, k: nat, ws: Cells)
    requires Ok(f) && AllocOk(f, al) && Path(GraphOf(f), p) && k <= |f.blocks[Last(p)].phis|
    ensures var c, m := Last(p), Latches(f, al, Last(p), k, ws);
            && (forall n :: Avail(f, c, -1, n) ==> Fetch(f, al, m, Local(n)) == Fetch(f, al, ws, Local(n)))
            && (forall n :: Read(m, Sh(n)) == Read(ws, Sh(n)))
            && (forall j :: 0 <= j < k ==>
                              Read(m, WordOf(al, f.blocks[c].phis[j].res)) == Read(ws, Sh(f.blocks[c].phis[j].res)))
    decreases k
  {
    if k > 0 {
      var c := Last(p);
      LatchesRight(f, al, p, k - 1, ws);
      var m := Latches(f, al, c, k - 1, ws);
      var x := f.blocks[c].phis[k - 1].res;
      assert IsPhi(f, c, k - 1) && PhiOf(f, c, x);
      var m' := m[WordOf(al, x) := Read(m, Sh(x))];
      forall n | Avail(f, c, -1, n) ensures Fetch(f, al, m', Local(n)) == Fetch(f, al, ws, Local(n)) {
        WriteKeeps(f, al, p, -1, x, n, m, Read(m, Sh(x)));
      }
      forall j | 0 <= j < k
        ensures Read(m', WordOf(al, f.blocks[c].phis[j].res)) == Read(ws, Sh(f.blocks[c].phis[j].res))
      {
        if j < k - 1 { PhisApart(f, al, c, j, k - 1); }
      }
    }
  }

  /** What the parallel assignment gives each name. */
  lemma {:induction false} PhisEnvAt(f: Func, b: int, c: int, k: nat, env: Env)
    requires Ssa(f) && IsBlock(f, c) && k <= |f.blocks[c].phis|
    ensures var e := PhisEnv(f.blocks[c].phis, k, b, env);
            && (forall n :: !PhiOf(f, c, n) ==> Get(e, n) == Get(env, n))
            && (forall j :: 0 <= j < k ==> Get(e, f.blocks[c].phis[j].res) == Incoming(f.blocks[c].phis[j], b, env))
    decreases k
  {
    if k > 0 {
      PhisEnvAt(f, b, c, k - 1, env);
      assert IsPhi(f, c, k - 1);
      forall j | 0 <= j < k - 1
        ensures f.blocks[c].phis[j].res != f.blocks[c].phis[k - 1].res
      {
        assert IsPhi(f, c, j);
      }
    }
  }

  /** Phi words hold the incoming values. */
  ghost predicate Loaded(f: Func, al: Alloc, b: int, c: int, env: Env, ws: Cells) {
    IsBlock(f, c) && forall j :: IsPhi(f, c, j) ==>
                                   Read(ws, WordOf(al, f.blocks[c].phis[j].res))
                                   == Incoming(f.blocks[c].phis[j], b, env)
  }

  /** Entering c: what is live is still readable, and its phis are loaded. */
  lemma {:induction false} EntryRight(f: Func, al: Alloc, b: int, c: int, env: Env, ws: Cells)
    requires Ok(f) && AllocOk(f, al) && IsBlock(f, b) && Edge(GraphOf(f), b, c) && Loaded(f, al, b, c, env, ws)
    requires forall n :: n !in f.def || LiveIn(f, n, c) ==> Fetch(f, al, ws, Local(n)) == Get(env, n)
    ensures Right(f, al, c, 0, PhisEnv(f.blocks[c].phis, |f.blocks[c].phis|, b, env), ws)
  {
    var e := PhisEnv(f.blocks[c].phis, |f.blocks[c].phis|, b, env);
    PhisEnvAt(f, b, c, |f.blocks[c].phis|, env);
    forall n | Avail(f, c, 0, n) ensures Fetch(f, al, ws, Local(n)) == Get(e, n) {
      if n !in f.def || LiveIn(f, n, c) {
        CarriedAvail(f, b, c, n);
      } else {
        assert PhiOf(f, c, n);
        var j :| IsPhi(f, c, j) && f.blocks[c].phis[j].res == n;
        assert Resolve(f, Local(n)) == Local(n);
      }
    }
  }

  // ----- runs -----

  /** The same block, the same world, and every live value in its word. */
  ghost predicate Follows(f: Func, al: Alloc, s: State, m: Machine) {
    match s
    case State(path, env, world) =>
      Path(GraphOf(f), path) && m.Machine? && m.b == Last(path) && m.world == world && Right(f, al, m.b, 0, env, m.ws)
    case Returned(v, final) => m == Halted(v, final)
  }

  /** Taking an edge to a direct-mode block. */
  lemma {:induction false} EnterDirect(f: Func, al: Alloc, p: seq<int>, c: int, env: Env, ws: Cells)
    requires Ok(f) && AllocOk(f, al) && Path(GraphOf(f), p) && Edge(GraphOf(f), Last(p), c) && IsBlock(f, c)
    requires Direct(f, c)
    requires Right(f, al, Last(p), Size(f, Last(p)), env, ws)
    ensures Right(f, al, c, 0, PhisEnv(f.blocks[c].phis, |f.blocks[c].phis|, Last(p), env),
              AllCopies(f, al, Last(p), c, ws))
  {
    hide Ok, AllocOk, Resolve, Fetch;
    var b, m := Last(p), AllCopies(f, al, Last(p), c, ws);
    DirectCopies(f, al, p, c, |f.blocks[c].phis|, env, ws);
    forall n | n !in f.def || LiveIn(f, n, c)
      ensures Fetch(f, al, m, Local(n)) == Get(env, n)
    {
      CarriedAvail(f, b, c, n);
    }
    assert Loaded(f, al, b, c, env, m);
    EntryRight(f, al, b, c, env, m);
  }

  /** Taking an edge to a shadow-mode block whose shadows are loaded. */
  lemma {:induction false} EnterShadow(f: Func, al: Alloc, p: seq<int>, c: int, env: Env, ws: Cells)
    requires Ok(f) && AllocOk(f, al) && Path(GraphOf(f), p) && Edge(GraphOf(f), Last(p), c) && IsBlock(f, c)
    requires !Direct(f, c)
    requires Right(f, al, Last(p), Size(f, Last(p)), env, ws) && Shadowed(f, Last(p), c, env, ws)
    ensures Right(f, al, c, 0, PhisEnv(f.blocks[c].phis, |f.blocks[c].phis|, Last(p), env), Head(f, al, c, ws))
  {
    hide Ok, AllocOk, Resolve, Fetch;
    var b, p', m := Last(p), p + [c], Head(f, al, c, ws);
    assert Path(GraphOf(f), p') && Last(p') == c;
    LatchesRight(f, al, p', |f.blocks[c].phis|, ws);
    forall n | n !in f.def || LiveIn(f, n, c) ensures Fetch(f, al, m, Local(n)) == Get(env, n) {
      CarriedAvail(f, b, c, n);
      assert Avail(f, c, -1, n);
    }
    assert Loaded(f, al, b, c, env, m);
    EntryRight(f, al, b, c, env, m);
  }

  /** A single edge: copies inline, then the head. */
  lemma {:induction false} JumpRight(f: Func, al: Alloc, p: seq<int>, c: int, env: Env, ws: Cells)
    requires Ok(f) && AllocOk(f, al) && Path(GraphOf(f), p) && Edge(GraphOf(f), Last(p), c) && IsBlock(f, c)
    requires Right(f, al, Last(p), Size(f, Last(p)), env, ws)
    ensures Right(f, al, c, 0, PhisEnv(f.blocks[c].phis, |f.blocks[c].phis|, Last(p), env),
                  Head(f, al, c, AllCopies(f, al, Last(p), c, ws)))
  {
    hide Ok, AllocOk, Right;
    if Direct(f, c) {
      EnterDirect(f, al, p, c, env, ws);
    } else {
      var m := AllCopies(f, al, Last(p), c, ws);
      AllShadows(f, al, p, c, env, ws);
      EnterShadow(f, al, p, c, env, m);
    }
  }

  lemma {:induction false} Targets(f: Func, b: int)
    requires Ssa(f) && IsBlock(f, b)
    ensures forall c :: c in Succs(f.blocks[b].term) <==> Edge(GraphOf(f), b, c)
    ensures forall c :: c in Succs(f.blocks[b].term) ==> IsBlock(f, c)
  {
    assert GraphOf(f)[b] == Succs(f.blocks[b].term);
  }

  /** Before the terminator: shadows are loaded, nothing else moved. */
  lemma {:induction false} AtTermRight(f: Func, al: Alloc, p: seq<int>, env: Env, ws: Cells)
    requires Ok(f) && AllocOk(f, al) && Path(GraphOf(f), p) && Right(f, al, Last(p), Size(f, Last(p)), env, ws)
    ensures var b, m := Last(p), AtTerm(f, al, Last(p), ws);
            && Right(f, al, b, Size(f, b), env, m)
            && (!Plain(f.blocks[b].term) ==>
                  forall c :: c in Succs(f.blocks[b].term) && !Direct(f, c) ==> Shadowed(f, b, c, env, m))
  {
    hide Right, AllocOk, Resolve, Defined, Dominated, Lowered;
    var b, t := Last(p), f.blocks[Last(p)].term;
    Targets(f, b);
    if !Plain(t) && !t.Ret? { InlineRight(f, al, p, t.tos, |t.tos|, env, ws); }
  }

  /** Any edge out of a block. */
  lemma {:induction false} CrossRight(f: Func, al: Alloc, p: seq<int>, c: int, env: Env, ws: Cells)
    requires Ok(f) && AllocOk(f, al) && Path(GraphOf(f), p) && Edge(GraphOf(f), Last(p), c) && IsBlock(f, c)
    requires Right(f, al, Last(p), Size(f, Last(p)), env, ws)
    ensures Right(f, al, c, 0, PhisEnv(f.blocks[c].phis, |f.blocks[c].phis|, Last(p), env),
              Crossed(f, al, Last(p), c, ws))
  {
    var b := Last(p);
    Targets(f, b);
    hide Right, AllocOk, Resolve, Ok, PhisEnv, Inline;
    AtTermRight(f, al, p, env, ws);
    if Plain(f.blocks[b].term) {
      JumpRight(f, al, p, c, env, ws);
    } else if Direct(f, c) {
      EnterDirect(f, al, p, c, env, AtTerm(f, al, b, ws));
    } else {
      EnterShadow(f, al, p, c, env, AtTerm(f, al, b, ws));
    }
  }

  lemma {:induction false} TermUses(f: Func, al: Alloc, p: seq<int>, env: Env, ws: Cells, s: Src)
    requires Ok(f) && Path(GraphOf(f), p) && Right(f, al, Last(p), Size(f, Last(p)), env, ws)
    requires s in TermOperands(f.blocks[Last(p)].term)
    ensures FetchAt(f, al, ws, s, End(f, Last(p))) == Value(env, s)
  {
    var b := Last(p);
    if s.Local? { UsedAvail(f, b, Size(f, b), s.n); }
    FetchSame(f, al, ws, s, p, Size(f, b));
  }

  /** Arriving at c with the right words. */
  lemma {:induction false} Arrives(f: Func, al: Alloc, p: seq<int>, c: int, env: Env, ws: Cells, world: int)
    requires Ok(f) && AllocOk(f, al) && Path(GraphOf(f), p) && Edge(GraphOf(f), Last(p), c) && IsBlock(f, c)
    requires Right(f, al, Last(p), Size(f, Last(p)), env, ws)
    ensures Follows(f, al, EnterEnv(f, p, c, env, world), Arrive(f, al, Last(p), c, ws, world))
  {
    hide Ok, Right, AllocOk, Crossed;
    CrossRight(f, al, p, c, env, ws);
  }

  lemma {:induction false} LeaveFollows(f: Func, al: Alloc, p: seq<int>, env: Env, ws: Cells, world: int)
    requires Ok(f) && AllocOk(f, al) && Path(GraphOf(f), p) && Right(f, al, Last(p), Size(f, Last(p)), env, ws)
    ensures Follows(f, al, LeaveEnv(f, p, env, world), LeaveWords(f, al, Last(p), ws, world))
  {
    var b := Last(p);
    Targets(f, b);
    hide Right, AllocOk, Dominated, Defined, Lowered, FetchAt, Resolve, EnterEnv, Arrive, AtTerm;
    match f.blocks[b].term
    case Ret(v) => TermUses(f, al, p, env, ws, v);
    case Jump(to) => Arrives(f, al, p, to, env, ws, world);
    case Branch(c, tos, pick) =>
      AtTermRight(f, al, p, env, ws);
      TermUses(f, al, p, env, AtTerm(f, al, b, ws), c);
      Arrives(f, al, p, tos[pick(Value(env, c))], env, ws, world);
  }

  /** One block: the words follow the SSA values. */
  lemma {:induction false} StepFollows(f: Func, al: Alloc, s: State, m: Machine)
    requires Ok(f) && AllocOk(f, al) && s.State? && Follows(f, al, s, m)
    ensures Follows(f, al, StepEnv(f, s), StepWords(f, al, m))
  {
    hide Ok, AllocOk, Right, LeaveEnv, LeaveWords, BodyEnv, BodyWords;
    var body := f.blocks[m.b].body;
    BodyRight(f, al, s.path, |body|, s.env, m.ws, m.world);
    var e, w := BodyEnv(body, |body|, s.env, s.world), BodyWords(f, al, m.b, |body|, m.ws, m.world);
    LeaveFollows(f, al, s.path, e.0, w.0, e.1);
  }

  ghost function RunEnv(f: Func, s: State, k: nat): State
    requires s.State? ==> Going(f, s)
    decreases k
  {
    if k == 0 || s.Returned? then s
    else
      var t := StepEnv(f, s);
      if t.State? && !Going(f, t) then t else RunEnv(f, t, k - 1)
  }

  ghost function RunWords(f: Func, al: Alloc, m: Machine, k: nat): Machine
    decreases k
  {
    if k == 0 || m.Halted? || !IsBlock(f, m.b) then m else RunWords(f, al, StepWords(f, al, m), k - 1)
  }

  lemma {:induction false} RunFollows(f: Func, al: Alloc, s: State, m: Machine, k: nat)
    requires Ok(f) && AllocOk(f, al) && Follows(f, al, s, m)
    ensures Follows(f, al, RunEnv(f, s, k), RunWords(f, al, m, k))
    decreases k
  {
    hide Ok, AllocOk, Right, StepEnv, StepWords;
    if k > 0 && s.State? {
      StepFollows(f, al, s, m);
      RunFollows(f, al, StepEnv(f, s), StepWords(f, al, m), k - 1);
    }
  }

  /** Nothing is live into the entry. */
  lemma {:induction false} EntryEmpty(f: Func, n: int)
    requires Ok(f)
    ensures !LiveIn(f, n, 0)
  {
    forall q ensures !LiveTrail(f, n, 0, q) {
      if LiveTrail(f, n, 0, q) {
        var k: nat :| ChargedBy(f, n, Last(q), k);
        ChargedDominated(f, n, Last(q), k);
        assert PathTo(GraphOf(f), q, Last(q));
        assert false;
      }
    }
  }

  /** Every run of every valid function on every sound allocation: same path, same world, same
      result, with every live value in its word at every block. */
  lemma {:induction false} FunctionFollows(f: Func, al: Alloc, args: Env, ws: Cells, world: int, k: nat)
    requires Ok(f) && AllocOk(f, al) && (forall n :: n in args ==> n !in f.def)
    requires forall n :: n !in f.def ==> Read(ws, V(n)) == Get(args, n)
    ensures Follows(f, al, RunEnv(f, State([0], args, world), k), RunWords(f, al, Machine(0, ws, world), k))
  {
    assert Path(GraphOf(f), [0]);
    forall n | Avail(f, 0, 0, n) ensures Fetch(f, al, ws, Local(n)) == Get(args, n) { EntryEmpty(f, n); }
    RunFollows(f, al, State([0], args, world), Machine(0, ws, world), k);
  }
}
