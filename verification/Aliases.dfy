/** When forwarding a cast is sound: blocks are lowered in order, and an alias is known only to the
    code lowered after its cast (host/dmacc/func.go). */
module Aliases {
  import opened Words
  import opened Cfg
  import opened Slots
  import opened Copies

  // ----- following a path -----

  /** The values on entry to the last block of a path. */
  ghost function EnvAlong(f: Func, p: seq<int>, args: Env, world: int): (Env, int)
    requires Path(GraphOf(f), p)
    decreases |p|
  {
    if |p| == 1 then (args, world)
    else
      var q := p[..|p| - 1];
      var e := EnvAlong(f, q, args, world);
      var body, phis := f.blocks[Last(q)].body, f.blocks[Last(p)].phis;
      var r := BodyEnv(body, |body|, e.0, e.1);
      (PhisEnv(phis, |phis|, Last(q), r.0), r.1)
  }

  /** The words there. */
  ghost function WordsAlong(f: Func, al: Alloc, p: seq<int>, ws: Cells, world: int): (Cells, int)
    requires Path(GraphOf(f), p)
    decreases |p|
  {
    if |p| == 1 then (ws, world)
    else
      var q := p[..|p| - 1];
      var w := WordsAlong(f, al, q, ws, world);
      var r := BodyWords(f, al, Last(q), Size(f, Last(q)), w.0, w.1);
      (Crossed(f, al, Last(q), Last(p), r.0), r.1)
  }

  /** Arguments are in their words; everything else holds anything. */
  ghost predicate Starts(f: Func, args: Env, ws: Cells) {
    (forall n :: n in args ==> n !in f.def) && forall n :: n !in f.def ==> Read(ws, V(n)) == Get(args, n)
  }

  /** In block b: phi words on entry, operands of instructions, and the terminator's. */
  ghost predicate BlockReads(f: Func, al: Alloc, b: int, e: (Env, int), w: (Cells, int))
    requires IsBlock(f, b)
  {
    && (forall n :: PhiOf(f, b, n) ==> Read(w.0, WordOf(al, n)) == Get(e.0, n))
    && (forall i, s :: IsIns(f, b, i) && s in Operands(f.blocks[b].body[i]) ==> InsRead(f, al, b, i, s, e, w))
    && (forall s :: s in TermOperands(f.blocks[b].term) ==> TermRead(f, al, b, s, e, w))
  }

  ghost predicate InsRead(f: Func, al: Alloc, b: int, i: int, s: Src, e: (Env, int), w: (Cells, int))
    requires IsIns(f, b, i)
  {
    var ws, env := BodyWords(f, al, b, i, w.0, w.1).0, BodyEnv(f.blocks[b].body, i, e.0, e.1).0;
    FetchAt(f, al, ws, s, Site(b, i)) == Value(env, s)
  }

  ghost predicate TermRead(f: Func, al: Alloc, b: int, s: Src, e: (Env, int), w: (Cells, int))
    requires IsBlock(f, b)
  {
    var k := Size(f, b);
    var ws, env := BodyWords(f, al, b, k, w.0, w.1).0, BodyEnv(f.blocks[b].body, k, e.0, e.1).0;
    FetchAt(f, al, AtTerm(f, al, b, ws), s, End(f, b)) == Value(env, s)
  }

  /** Every read at the end of path p sees the value its definition produced. */
  ghost predicate ReadsRight(f: Func, al: Alloc, p: seq<int>, args: Env, ws: Cells, world: int)
    requires Path(GraphOf(f), p)
  {
    BlockReads(f, al, Last(p), EnvAlong(f, p, args, world), WordsAlong(f, al, p, ws, world))
  }

  /** So does every read on every path, whatever the words held. */
  ghost predicate AllReadsRight(f: Func, al: Alloc) {
    forall p, args, ws, world :: Path(GraphOf(f), p) && Starts(f, args, ws) ==> ReadsRight(f, al, p, args, ws, world)
  }

  // ----- lowered after their aliases, all reads are right -----

  lemma {:induction false} StartRight(f: Func, al: Alloc, args: Env, ws: Cells)
    requires Ok(f) && AllocOk(f, al) && Starts(f, args, ws)
    ensures Right(f, al, 0, 0, args, ws)
  {
    forall n | Avail(f, 0, 0, n) ensures Fetch(f, al, ws, Local(n)) == Get(args, n) { EntryEmpty(f, n); }
  }

  lemma {:induction false} AlongRight(f: Func, al: Alloc, p: seq<int>, args: Env, ws: Cells, world: int)
    requires Ok(f) && AllocOk(f, al) && Path(GraphOf(f), p) && Starts(f, args, ws)
    ensures var e, w := EnvAlong(f, p, args, world), WordsAlong(f, al, p, ws, world);
            e.1 == w.1 && Right(f, al, Last(p), 0, e.0, w.0)
    decreases |p|
  {
    hide Ok, AllocOk, Right, Crossed, BodyEnv, BodyWords, PhisEnv, Starts;
    if |p| == 1 {
      StartRight(f, al, args, ws);
    } else {
      var q := p[..|p| - 1];
      assert Edge(GraphOf(f), Last(q), Last(p));
      AlongRight(f, al, q, args, ws, world);
      var e, w := EnvAlong(f, q, args, world), WordsAlong(f, al, q, ws, world);
      var k := Size(f, Last(q));
      BodyRight(f, al, q, k, e.0, w.0, e.1);
      CrossRight(f, al, q, Last(p), BodyEnv(f.blocks[Last(q)].body, k, e.0, e.1).0,
          BodyWords(f, al, Last(q), k, w.0, w.1).0);
    }
  }

  lemma {:induction false} BlockReadsRight(f: Func, al: Alloc, p: seq<int>, e: (Env, int), w: (Cells, int))
    requires Ok(f) && AllocOk(f, al) && Path(GraphOf(f), p) && e.1 == w.1 && Right(f, al, Last(p), 0, e.0, w.0)
    ensures BlockReads(f, al, Last(p), e, w)
  {
    var b := Last(p);
    forall n | PhiOf(f, b, n) ensures Read(w.0, WordOf(al, n)) == Get(e.0, n) {
      assert Avail(f, b, 0, n) && Resolve(f, Local(n)) == Local(n);
    }
    hide Ok, AllocOk, Right, BodyEnv, BodyWords, AtTerm, FetchAt;
    forall i, s | IsIns(f, b, i) && s in Operands(f.blocks[b].body[i]) ensures InsRead(f, al, b, i, s, e, w) {
      BodyRight(f, al, p, i, e.0, w.0, e.1);
      OperandRight(f, al, p, i, BodyEnv(f.blocks[b].body, i, e.0, e.1).0, BodyWords(f, al, b, i, w.0, w.1).0, s);
    }
    forall s | s in TermOperands(f.blocks[b].term) ensures TermRead(f, al, b, s, e, w) {
      var k := Size(f, b);
      var env, ws := BodyEnv(f.blocks[b].body, k, e.0, e.1).0, BodyWords(f, al, b, k, w.0, w.1).0;
      BodyRight(f, al, p, k, e.0, w.0, e.1);
      AtTermRight(f, al, p, env, ws);
      TermUses(f, al, p, env, AtTerm(f, al, b, ws), s);
    }
  }

  lemma {:induction false} LoweredReads(f: Func, al: Alloc)
    requires Ok(f) && AllocOk(f, al)
    ensures AllReadsRight(f, al)
  {
    forall p, args, ws, world | Path(GraphOf(f), p) && Starts(f, args, ws)
      ensures ReadsRight(f, al, p, args, ws, world)
    {
      AlongRight(f, al, p, args, ws, world);
      BlockReadsRight(f, al, p, EnvAlong(f, p, args, world), WordsAlong(f, al, p, ws, world));
    }
  }

  // ----- an alias' own word is never written -----

  /** n is an alias that shares its word with nothing. */
  ghost predicate Lone(f: Func, al: Alloc, n: int) {
    Ssa(f) && AllocOk(f, al) && Alias(f, n) && n !in al
  }

  lemma {:induction false} LonePhi(f: Func, al: Alloc, n: int, c: int, j: int)
    requires Lone(f, al, n) && IsPhi(f, c, j)
    ensures f.blocks[c].phis[j].res != n && WordOf(al, f.blocks[c].phis[j].res) != V(n)
  {
  }

  lemma {:induction false} BodyKeeps(f: Func, al: Alloc, n: int, b: int, k: nat, ws: Cells, world: int)
    requires Lone(f, al, n) && IsBlock(f, b) && k <= Size(f, b)
    ensures Read(BodyWords(f, al, b, k, ws, world).0, V(n)) == Read(ws, V(n))
    decreases k
  {
    if k > 0 {
      BodyKeeps(f, al, n, b, k - 1, ws, world);
      assert IsIns(f, b, k - 1) && f.def[f.blocks[b].body[k - 1].res] == Site(b, k - 1);
    }
  }

  lemma {:induction false} LoneTargets(f: Func, al: Alloc, n: int, c: int, j: int, k: int)
    requires Lone(f, al, n) && IsPhi(f, c, j) && IsPhi(f, c, k) && j != k
    ensures Target(f, al, c, f.blocks[c].phis[j].res) != Target(f, al, c, f.blocks[c].phis[k].res)
    ensures WordOf(al, f.blocks[c].phis[j].res) != WordOf(al, f.blocks[c].phis[k].res)
  {
    Distinct(f, al, f.blocks[c].phis[j].res, f.blocks[c].phis[k].res, c);
  }

  lemma {:induction false} LoneTarget(f: Func, al: Alloc, n: int, c: int, j: int)
    requires Lone(f, al, n) && IsPhi(f, c, j)
    ensures Target(f, al, c, f.blocks[c].phis[j].res) != V(n)
    ensures Target(f, al, c, f.blocks[c].phis[j].res).Sh? ==> PhiOf(f, c, Target(f, al, c, f.blocks[c].phis[j].res).n)
  {
  }

  /** Copies of an edge leave it, and every shadow of another block. */
  lemma {:induction false} CopiesKeep(f: Func, al: Alloc, n: int, b: int, c: int, k: nat, ws: Cells)
    requires Lone(f, al, n) && IsBlock(f, b) && IsBlock(f, c) && k <= |f.blocks[c].phis|
    ensures var m := EdgeCopies(f, al, b, c, k, ws);
            && Read(m, V(n)) == Read(ws, V(n))
            && (forall s: Slot :: s.Sh? && !PhiOf(f, c, s.n) ==> Read(m, s) == Read(ws, s))
    decreases k
  {
    hide Lone, FetchAt, Target, PhiOf;
    if k > 0 {
      CopiesKeep(f, al, n, b, c, k - 1, ws);
      LoneTarget(f, al, n, c, k - 1);
    }
  }

  lemma {:induction false} EarlyFetch(f: Func, al: Alloc, n: int, t: Site, ws: Cells)
    requires Lone(f, al, n) && !Before(f.def[n], t)
    ensures FetchAt(f, al, ws, Local(n), t) == Read(ws, V(n))
  {
    EarlyResolves(f, n, t);
  }

  /** A phi fed by n early takes what n's word holds. */
  lemma {:induction false} CopiesTaint(f: Func, al: Alloc, n: int, b: int, c: int, j: int, k: nat, ws: Cells)
    requires Lone(f, al, n) && IsBlock(f, b) && IsBlock(f, c) && 0 <= j < k <= |f.blocks[c].phis|
    requires EdgeUses(f, c, j, b, n) && !Before(f.def[n], End(f, b))
    ensures Read(EdgeCopies(f, al, b, c, k, ws), Target(f, al, c, f.blocks[c].phis[j].res)) == Read(ws, V(n))
    decreases k
  {
    hide Lone, FetchAt, Target, Before, EdgeCopies;
    var m := EdgeCopies(f, al, b, c, k - 1, ws);
    if j == k - 1 {
      CopiesKeep(f, al, n, b, c, k - 1, ws);
      EarlyFetch(f, al, n, End(f, b), m);
      LastCopy(f, al, b, c, k, ws);
    } else {
      CopiesTaint(f, al, n, b, c, j, k - 1, ws);
      LoneTargets(f, al, n, c, j, k - 1);
      LastCopy(f, al, b, c, k, ws);
    }
  }

  lemma {:induction false} LastCopy(f: Func, al: Alloc, b: int, c: int, k: nat, ws: Cells)
    requires IsBlock(f, b) && IsBlock(f, c) && 0 < k <= |f.blocks[c].phis|
    ensures var m, phi := EdgeCopies(f, al, b, c, k - 1, ws), f.blocks[c].phis[k - 1];
            EdgeCopies(f, al, b, c, k, ws)
            == if b in phi.args then m[Target(f, al, c, phi.res) := FetchAt(f, al, m, phi.args[b], End(f, b))] else m
  {
  }

  /** Shadows of c that hold what n's word held, where n feeds c's phis early. */
  ghost predicate Tainted(f: Func, n: int, b: int, c: int, x: Word, ws: Cells)
    requires IsBlock(f, b)
  {
    forall j :: IsPhi(f, c, j) && EdgeUses(f, c, j, b, n) ==> Read(ws, Sh(f.blocks[c].phis[j].res)) == x
  }

  lemma {:induction false} ShadowsTaint(f: Func, al: Alloc, n: int, b: int, c: int, ws: Cells)
    requires Lone(f, al, n) && IsBlock(f, b) && IsBlock(f, c) && !Direct(f, c) && !Before(f.def[n], End(f, b))
    ensures Tainted(f, n, b, c, Read(ws, V(n)), AllCopies(f, al, b, c, ws))
  {
    hide Lone, Direct, Before, EdgeCopies;
    forall j | IsPhi(f, c, j) && EdgeUses(f, c, j, b, n)
      ensures Read(AllCopies(f, al, b, c, ws), Sh(f.blocks[c].phis[j].res)) == Read(ws, V(n))
    {
      CopiesTaint(f, al, n, b, c, j, |f.blocks[c].phis|, ws);
    }
  }

  lemma {:induction false} InlineKeeps(f: Func, al: Alloc, n: int, b: int, tos: seq<int>, k: nat, ws: Cells)
    requires Lone(f, al, n) && IsBlock(f, b) && k <= |tos|
    ensures var m := Inline(f, al, b, tos, k, ws);
            && Read(m, V(n)) == Read(ws, V(n))
            && (!Before(f.def[n], End(f, b)) ==>
                  forall c :: c in tos[..k] && IsBlock(f, c) && !Direct(f, c) ==>
                                Tainted(f, n, b, c, Read(ws, V(n)), m))
    decreases k
  {
    assert n in f.def;
    hide Lone, Direct, Before, EdgeUses, Read, Tainted, AllCopies;
    if k > 0 {
      InlineKeeps(f, al, n, b, tos, k - 1, ws);
      var m, c := Inline(f, al, b, tos, k - 1, ws), tos[k - 1];
      assert tos[..k] == tos[..k - 1] + [c];
      if c !in tos[..k - 1] && IsBlock(f, c) && !Direct(f, c) {
        CopiesKeep(f, al, n, b, c, |f.blocks[c].phis|, m);
        if !Before(f.def[n], End(f, b)) {
          ShadowsTaint(f, al, n, b, c, m);
          hide Inline;
          forall d | d in tos[..k] && IsBlock(f, d) && !Direct(f, d)
            ensures Tainted(f, n, b, d, Read(ws, V(n)), AllCopies(f, al, b, c, m))
          {
            if d != c { TaintKept(f, al, n, b, c, d, Read(ws, V(n)), m); }
          }
        }
      }
    }
  }

  lemma {:induction false} TaintKept(f: Func, al: Alloc, n: int, b: int, c: int, d: int, x: Word, ws: Cells)
    requires Lone(f, al, n) && IsBlock(f, b) && IsBlock(f, c) && c != d && Tainted(f, n, b, d, x, ws)
    ensures Tainted(f, n, b, d, x, AllCopies(f, al, b, c, ws))
  {
    CopiesKeep(f, al, n, b, c, |f.blocks[c].phis|, ws);
  }

  lemma {:induction false} LatchesKeep(f: Func, al: Alloc, n: int, c: int, k: nat, ws: Cells)
    requires Lone(f, al, n) && IsBlock(f, c) && k <= |f.blocks[c].phis|
    ensures var m := Latches(f, al, c, k, ws);
            && Read(m, V(n)) == Read(ws, V(n)) && (forall x :: Read(m, Sh(x)) == Read(ws, Sh(x)))
            && (forall j :: 0 <= j < k ==>
                              Read(m, WordOf(al, f.blocks[c].phis[j].res)) == Read(ws, Sh(f.blocks[c].phis[j].res)))
    decreases k
  {
    assert forall m :: !WordOf(al, m).Sh?;
    hide Lone, WordOf;
    if k > 0 {
      LatchesKeep(f, al, n, c, k - 1, ws);
      assert IsPhi(f, c, k - 1);
      LonePhi(f, al, n, c, k - 1);
      forall j | 0 <= j < k - 1 ensures WordOf(al, f.blocks[c].phis[j].res) != WordOf(al, f.blocks[c].phis[k - 1].res) {
        LoneTargets(f, al, n, c, j, k - 1);
      }
    }
  }

  /** Before the terminator. */
  lemma {:induction false} AtTermKeeps(f: Func, al: Alloc, n: int, b: int, ws: Cells)
    requires Lone(f, al, n) && IsBlock(f, b)
    ensures var m, t := AtTerm(f, al, b, ws), f.blocks[b].term;
            && Read(m, V(n)) == Read(ws, V(n))
            && (!Before(f.def[n], End(f, b)) && !Plain(t) ==>
                  forall c :: c in Succs(t) && IsBlock(f, c) && !Direct(f, c) ==>
                                Tainted(f, n, b, c, Read(ws, V(n)), m))
  {
    var t := f.blocks[b].term;
    hide Lone, Direct, Before, Read, Tainted, Inline;
    if !Plain(t) && !t.Ret? {
      assert t.tos[..|t.tos|] == t.tos;
      InlineKeeps(f, al, n, b, t.tos, |t.tos|, ws);
    }
  }

  /** Across an edge: a phi fed by n early ends up with what n's word held. */
  lemma {:induction false} CrossKeeps(f: Func, al: Alloc, n: int, b: int, c: int, ws: Cells)
    requires Lone(f, al, n) && IsBlock(f, b) && IsBlock(f, c) && c in Succs(f.blocks[b].term)
    ensures var m := Crossed(f, al, b, c, ws);
            && Read(m, V(n)) == Read(ws, V(n))
            && (forall j :: EdgeUses(f, c, j, b, n) && !Before(f.def[n], End(f, b)) ==>
                  Read(m, WordOf(al, f.blocks[c].phis[j].res)) == Read(ws, V(n)))
  {
    assert n in f.def;
    hide Lone, Direct, Before, Read, Inline, Latches, EdgeCopies;
    var k, t := |f.blocks[c].phis|, f.blocks[b].term;
    var m := AtTerm(f, al, b, ws);
    AtTermKeeps(f, al, n, b, ws);
    CopiesKeep(f, al, n, b, c, k, m);
    forall j | EdgeUses(f, c, j, b, n) && !Before(f.def[n], End(f, b))
      ensures Read(AllCopies(f, al, b, c, m), Target(f, al, c, f.blocks[c].phis[j].res)) == Read(ws, V(n))
    {
      CopiesTaint(f, al, n, b, c, j, k, m);
    }
    var m' := if Plain(t) || Direct(f, c) then AllCopies(f, al, b, c, m) else m;
    LatchesKeep(f, al, n, c, k, m');
  }

  lemma {:induction false} AlongKeeps(f: Func, al: Alloc, n: int, p: seq<int>, ws: Cells, world: int)
    requires Lone(f, al, n) && Path(GraphOf(f), p)
    ensures Read(WordsAlong(f, al, p, ws, world).0, V(n)) == Read(ws, V(n))
    decreases |p|
  {
    hide Lone, Crossed, BodyWords, Read;
    if |p| > 1 {
      var q := p[..|p| - 1];
      assert Edge(GraphOf(f), Last(q), Last(p));
      AlongKeeps(f, al, n, q, ws, world);
      var w := WordsAlong(f, al, q, ws, world);
      BodyKeeps(f, al, n, Last(q), Size(f, Last(q)), w.0, w.1);
      CrossKeeps(f, al, n, Last(q), Last(p), BodyWords(f, al, Last(q), Size(f, Last(q)), w.0, w.1).0);
    }
  }

  // ----- lowered before its alias, a read is wrong -----

  function Other(v: Word): (x: Word)
    ensures x != v
  {
    if v == 0 then 1 else 0
  }

  /** Words that hold x where n's would be, and nothing else. */
  function Stray(n: int, x: Word): Cells {
    map[V(n) := x]
  }

  lemma {:induction false} StrayStarts(f: Func, n: int, x: Word)
    requires n in f.def
    ensures Starts(f, map[], Stray(n, x)) && Read(Stray(n, x), V(n)) == x
  {
  }

  /** An instruction operand read before its alias is lowered. */
  lemma {:induction false} EarlyIns(f: Func, al: Alloc, n: int, p: seq<int>, i: int)
    requires Lone(f, al, n) && Path(GraphOf(f), p) && InsUses(f, Last(p), i, n) && !Before(f.def[n], Site(Last(p), i))
    ensures !AllReadsRight(f, al)
  {
    var b := Last(p);
    var e := EnvAlong(f, p, map[], 0);
    var ws := Stray(n, Other(Get(BodyEnv(f.blocks[b].body, i, e.0, e.1).0, n)));
    StrayStarts(f, n, ws[V(n)]);
    AlongKeeps(f, al, n, p, ws, 0);
    var w := WordsAlong(f, al, p, ws, 0);
    BodyKeeps(f, al, n, b, i, w.0, w.1);
    EarlyResolves(f, n, Site(b, i));
    assert !InsRead(f, al, b, i, Local(n), e, w);
    assert !ReadsRight(f, al, p, map[], ws, 0);
  }

  /** A terminator operand. */
  lemma {:induction false} EarlyTerm(f: Func, al: Alloc, n: int, p: seq<int>)
    requires Lone(f, al, n) && Path(GraphOf(f), p) && Local(n) in TermOperands(f.blocks[Last(p)].term)
    requires !Before(f.def[n], End(f, Last(p)))
    ensures !AllReadsRight(f, al)
  {
    var b, k := Last(p), Size(f, Last(p));
    var e := EnvAlong(f, p, map[], 0);
    var ws := Stray(n, Other(Get(BodyEnv(f.blocks[b].body, k, e.0, e.1).0, n)));
    StrayStarts(f, n, ws[V(n)]);
    AlongKeeps(f, al, n, p, ws, 0);
    var w := WordsAlong(f, al, p, ws, 0);
    BodyKeeps(f, al, n, b, k, w.0, w.1);
    AtTermKeeps(f, al, n, b, BodyWords(f, al, b, k, w.0, w.1).0);
    EarlyResolves(f, n, End(f, b));
    assert !TermRead(f, al, b, Local(n), e, w);
    assert !ReadsRight(f, al, p, map[], ws, 0);
  }

  /** An edge copy: the phi it feeds enters the next block wrong. */
  lemma {:induction false} EarlyEdge(f: Func, al: Alloc, n: int, p: seq<int>, c: int, j: int)
    requires Lone(f, al, n) && Path(GraphOf(f), p) && Edge(GraphOf(f), Last(p), c) && EdgeUses(f, c, j, Last(p), n)
    requires !Before(f.def[n], End(f, Last(p)))
    ensures !AllReadsRight(f, al)
  {
    var b, k, p' := Last(p), Size(f, Last(p)), p + [c];
    assert p'[..|p'| - 1] == p && Path(GraphOf(f), p');
    var e := EnvAlong(f, p, map[], 0);
    var env := BodyEnv(f.blocks[b].body, k, e.0, e.1).0;
    var ws := Stray(n, Other(Get(env, n)));
    StrayStarts(f, n, ws[V(n)]);
    AlongKeeps(f, al, n, p, ws, 0);
    var w := WordsAlong(f, al, p, ws, 0);
    BodyKeeps(f, al, n, b, k, w.0, w.1);
    CrossKeeps(f, al, n, b, c, BodyWords(f, al, b, k, w.0, w.1).0);
    var x := f.blocks[c].phis[j].res;
    PhisEnvAt(f, b, c, |f.blocks[c].phis|, env);
    assert PhiOf(f, c, x) && Get(EnvAlong(f, p', map[], 0).0, x) == Get(env, n);
    assert !ReadsRight(f, al, p', map[], ws, 0);
  }

  lemma {:induction false} EarlyWrong(f: Func, al: Alloc, n: int, p: seq<int>, i: int)
    requires Lone(f, al, n) && Path(GraphOf(f), p) && ReadsAt(f, Last(p), i, n) && !Before(f.def[n], Site(Last(p), i))
    ensures !AllReadsRight(f, al)
  {
    var b := Last(p);
    if InsUses(f, b, i, n) {
      EarlyIns(f, al, n, p, i);
    } else if Local(n) in TermOperands(f.blocks[b].term) {
      EarlyTerm(f, al, n, p);
    } else {
      var c, j :| Edge(GraphOf(f), b, c) && EdgeUses(f, c, j, b, n);
      EarlyEdge(f, al, n, p, c, j);
    }
  }

  /** Every read on every path sees the value its definition produced, whatever the sharing of
      words and whatever they held at first, exactly when every alias is lowered before the
      instructions, terminators and edge copies that read it. */
  lemma {:induction false} ForwardingSound(f: Func)
    requires Ssa(f)
    ensures Lowered(f) <==> forall al :: AllocOk(f, al) ==> AllReadsRight(f, al)
  {
    if Lowered(f) {
      forall al | AllocOk(f, al) ensures AllReadsRight(f, al) { LoweredReads(f, al); }
    } else {
      var b, i, n :| ReadsAt(f, b, i, n) && Alias(f, n) && Reached(GraphOf(f), b) && !Before(f.def[n], Site(b, i));
      var p :| PathTo(GraphOf(f), p, b);
      assert AllocOk(f, map[]);
      EarlyWrong(f, map[], n, p, i);
    }
  }

  // ----- the failing order -----

  /** The entry jumps ahead to a forwarded cast of parameter 0, and the block before it returns the
      cast. */
  function Backward(): Func {
    Func([Block([], [], Jump(2)), Block([], [], Ret(Local(1))), Block([], [Fwd(1, Local(0))], Jump(1))],
         map[1 := Site(2, 0)])
  }

  lemma {:induction false} BackwardEdges(p: seq<int>)
    requires PathTo(GraphOf(Backward()), p, 1)
    ensures 2 in p
  {
    var g := GraphOf(Backward());
    assert g[0] == [2] && g[1] == [] && g[2] == [1];
    assert Edge(g, p[|p| - 2], p[|p| - 1]);
    assert p[|p| - 2] in p;
  }

  lemma {:induction false} BackwardDefined()
    ensures Defined(Backward())
  {
    var f := Backward();
    assert forall b, i :: IsIns(f, b, i) ==> b == 2 && i == 0;
    assert forall b, j :: !IsPhi(f, b, j);
    assert IsIns(f, 2, 0);
  }

  lemma {:induction false} BackwardUses(b: int, n: int)
    requires UsedIn(Backward(), b, n) && n in Backward().def
    ensures b == 1 && n == 1
  {
    var f := Backward();
    assert forall c, j :: !IsPhi(f, c, j);
    assert forall i :: IsIns(f, b, i) ==> b == 2 && i == 0;
  }

  lemma {:induction false} BackwardDominated()
    ensures Dominated(Backward())
  {
    var f := Backward();
    forall b, i, n ensures !(InsUses(f, b, i, n) && n in f.def) {
      if InsUses(f, b, i, n) && n in f.def {
        BackwardUses(b, n);
        assert false;
      }
    }
    forall b, n | UsedIn(f, b, n) && n in f.def ensures Dominates(GraphOf(f), f.def[n].b, b) {
      BackwardUses(b, n);
      forall p | PathTo(GraphOf(f), p, 1) ensures 2 in p { BackwardEdges(p); }
    }
  }

  lemma {:induction false} BackwardSsa()
    ensures Ssa(Backward())
  {
    var f := Backward();
    assert GraphOf(f) == [[2], [], [1]];
    BackwardDefined();
    BackwardDominated();
    hide Defined, Dominated;
    assert forall b, j :: !IsPhi(f, b, j);
  }

  lemma {:induction false} BackwardEarly()
    ensures Alias(Backward(), 1) && !Lowered(Backward())
  {
    var f := Backward();
    assert GraphOf(f) == [[2], [], [1]];
    assert ReadsAt(f, 1, 0, 1) && PathTo(GraphOf(f), [0, 2, 1], 1);
  }

  lemma {:induction false} BackwardEnv(x: Word, world: int)
    ensures RunEnv(Backward(), State([0], map[0 := x], world), 3) == Returned(x, world)
  {
    var f := Backward();
    var g, env := GraphOf(f), map[0 := x, 1 := x];
    assert g == [[2], [], [1]];
    assert Path(g, [0]) && Path(g, [0, 2]) && Path(g, [0, 2, 1]);
    assert [0] + [2] == [0, 2] && [0, 2] + [1] == [0, 2, 1];
    assert BodyEnv(f.blocks[2].body, 1, map[0 := x], world) == (env, world) by {
      assert BodyEnv(f.blocks[2].body, 0, map[0 := x], world) == (map[0 := x], world);
    }
    var s0, s1, s2 := State([0], map[0 := x], world), State([0, 2], map[0 := x], world), State([0, 2, 1], env, world);
    assert StepEnv(f, s0) == s1 && StepEnv(f, s1) == s2 && StepEnv(f, s2) == Returned(x, world);
    assert RunEnv(f, s2, 1) == Returned(x, world) && RunEnv(f, s1, 2) == Returned(x, world);
  }

  lemma {:induction false} BackwardStep(b: int, ws: Cells, world: int)
    requires b == 0 || b == 2
    ensures StepWords(Backward(), map[], Machine(b, ws, world)) == Machine(if b == 0 then 2 else 1, ws, world)
  {
    var f := Backward();
    BackwardEarly();
    assert Direct(f, 1) && Direct(f, 2);
    assert BodyWords(f, map[], 2, 1, ws, world) == (ws, world) by {
      assert BodyWords(f, map[], 2, 0, ws, world) == (ws, world);
    }
  }

  lemma {:induction false} BackwardWords(ws: Cells, world: int)
    ensures RunWords(Backward(), map[], Machine(0, ws, world), 3) == Halted(Read(ws, V(1)), world)
  {
    BackwardStep(0, ws, world);
    BackwardStep(2, ws, world);
    var f := Backward();
    BackwardEarly();
    EarlyResolves(f, 1, Site(1, 0));
    hide Lowered, Alias, ResolveAt;
    var m1, m2, m3 := Machine(2, ws, world), Machine(1, ws, world), Halted(Read(ws, V(1)), world);
    assert BodyWords(f, map[], 1, 0, ws, world) == (ws, world);
    assert StepWords(f, map[], m2) == m3;
    hide StepWords;
    assert RunWords(f, map[], m3, 0) == m3 && RunWords(f, map[], m2, 1) == m3 && RunWords(f, map[], m1, 2) == m3;
  }

  /** It is valid SSA and returns its parameter, but the code returns a word nothing writes. */
  lemma {:induction false} LostAlias(x: Word, y: Word, world: int)
    ensures var f := Backward();
            && Ssa(f) && !Lowered(f)
            && RunEnv(f, State([0], map[0 := x], world), 3) == Returned(x, world)
            && RunWords(f, map[], Machine(0, map[V(0) := x, V(1) := y], world), 3) == Halted(y, world)
  {
    hide Ssa, Lowered, RunWords, RunEnv;
    BackwardSsa();
    BackwardEarly();
    BackwardEnv(x, world);
    BackwardWords(map[V(0) := x, V(1) := y], world);
  }
}
