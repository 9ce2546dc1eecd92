/** SSA functions and where their values live: use blocks charged through forwarding, live ranges
    at block granularity, and which words may be shared (host/dmacc/func.go). */
module Slots {
  import opened Words
  import opened Cfg

  // ----- functions -----

  datatype Src = Const(w: Word) | Local(n: int)

  /** An instruction computes a word from its operands and the world (memory, calls) it may
      change; cast marks the opcodes that may forward. Fwd is a cast lowered to no code. */
  datatype Ins =
    | Op(res: int, srcs: seq<Src>, cast: bool, f: (seq<Word>, int) -> (Word, int))
    | Fwd(res: int, src: Src)

  datatype Phi = Phi(res: int, args: map<int, Src>)
  datatype Term = Ret(s: Src) | Jump(to: int) | Branch(cond: Src, tos: seq<int>, pick: Word -> int)
  datatype Block = Block(phis: seq<Phi>, body: seq<Ins>, term: Term)

  /** Where a value is defined: its block and its index there, -1 for a phi. */
  datatype Site = Site(b: int, i: int)

  /** Names without a definition are parameters. */
  datatype Func = Func(blocks: seq<Block>, def: map<int, Site>)

  function Succs(t: Term): seq<int> {
    match t
    case Ret(_) => []
    case Jump(to) => [to]
    case Branch(_, tos, _) => tos
  }

  function GraphOf(f: Func): Graph {
    seq(|f.blocks|, i requires 0 <= i < |f.blocks| => Succs(f.blocks[i].term))
  }

  function Operands(ins: Ins): seq<Src> {
    match ins
    case Op(_, srcs, _, _) => srcs
    case Fwd(_, src) => [src]
  }

  function TermOperands(t: Term): seq<Src> {
    match t
    case Ret(s) => [s]
    case Jump(_) => []
    case Branch(c, _, _) => [c]
  }

  predicate IsCast(ins: Ins) {
    ins.Fwd? || ins.cast
  }

  predicate IsBlock(f: Func, b: int) {
    0 <= b < |f.blocks|
  }

  predicate IsIns(f: Func, b: int, i: int) {
    IsBlock(f, b) && 0 <= i < |f.blocks[b].body|
  }

  predicate IsPhi(f: Func, b: int, j: int) {
    IsBlock(f, b) && 0 <= j < |f.blocks[b].phis|
  }

  predicate PhiOf(f: Func, b: int, n: int) {
    n in f.def && f.def[n] == Site(b, -1)
  }

  // ----- uses -----

  predicate InsUses(f: Func, b: int, i: int, n: int) {
    IsIns(f, b, i) && Local(n) in Operands(f.blocks[b].body[i])
  }

  /** Phi j of block c reads n on the edge from b, at the end of b. */
  predicate EdgeUses(f: Func, c: int, j: int, b: int, n: int) {
    IsPhi(f, c, j) && b in f.blocks[c].phis[j].args && f.blocks[c].phis[j].args[b] == Local(n)
  }

  /** The blocks in which n's word is read. */
  ghost predicate UsedIn(f: Func, b: int, n: int) {
    && IsBlock(f, b)
    && ((exists i :: InsUses(f, b, i, n)) || Local(n) in TermOperands(f.blocks[b].term)
        || exists c, j :: EdgeUses(f, c, j, b, n))
  }

  /** m is defined by a cast of n, and may stand for n's word. */
  predicate Casts(f: Func, n: int, m: int) {
    m in f.def && IsIns(f, f.def[m].b, f.def[m].i) && IsCast(f.blocks[f.def[m].b].body[f.def[m].i])
    && Local(n) in Operands(f.blocks[f.def[m].b].body[f.def[m].i])
  }

  /** u reads n, or a value at most k casts away from n. */
  ghost predicate ChargedBy(f: Func, n: int, u: int, k: nat)
    decreases k
  {
    UsedIn(f, u, n) || (k > 0 && exists m :: Casts(f, n, m) && ChargedBy(f, m, u, k - 1))
  }

  ghost predicate Charged(f: Func, n: int, u: int) {
    exists k: nat :: ChargedBy(f, n, u, k)
  }

  // ----- valid SSA -----

  ghost predicate Defined(f: Func) {
    && (forall b, i :: IsIns(f, b, i) ==>
                      f.blocks[b].body[i].res in f.def && f.def[f.blocks[b].body[i].res] == Site(b, i))
    && (forall b, j :: IsPhi(f, b, j) ==> PhiOf(f, b, f.blocks[b].phis[j].res))
    && (forall b, j, k :: IsPhi(f, b, j) && IsPhi(f, b, k) && j != k ==>
                      f.blocks[b].phis[j].res != f.blocks[b].phis[k].res)
    && (forall n :: n in f.def ==>
          var s := f.def[n];
          if s.i == -1 then IsBlock(f, s.b) && exists j :: IsPhi(f, s.b, j) && f.blocks[s.b].phis[j].res == n
          else IsIns(f, s.b, s.i) && f.blocks[s.b].body[s.i].res == n)
  }

  /** Definitions dominate uses: earlier in the block, or in a dominating block. */
  ghost predicate Dominated(f: Func) {
    && (forall b, i, n :: InsUses(f, b, i, n) && n in f.def && f.def[n].b == b ==> f.def[n].i < i)
    && (forall b, n :: UsedIn(f, b, n) && n in f.def ==> Dominates(GraphOf(f), f.def[n].b, b))
  }

  /** Branches stay inside the function; every edge has its phi operands. */
  ghost predicate Wired(f: Func) {
    && Valid(GraphOf(f)) && f.blocks[0].phis == []
    && (forall b :: IsBlock(f, b) && f.blocks[b].term.Branch? ==>
                      forall w :: 0 <= f.blocks[b].term.pick(w) < |f.blocks[b].term.tos|)
    && (forall b, c, j :: Edge(GraphOf(f), b, c) && IsPhi(f, c, j) ==> b in f.blocks[c].phis[j].args)
    && (forall c, j, b :: IsPhi(f, c, j) && b in f.blocks[c].phis[j].args ==> IsBlock(f, b))
  }

  /** n is an alias of its source: a forwarded cast of anything but a phi. */
  predicate Alias(f: Func, n: int) {
    n in f.def && IsIns(f, f.def[n].b, f.def[n].i) && f.blocks[f.def[n].b].body[f.def[n].i].Fwd?
    && var s := f.blocks[f.def[n].b].body[f.def[n].i].src; (s.Local? && s.n in f.def ==> f.def[s.n].i != -1)
  }

  function SourceOf(f: Func, n: int): Src
    requires Alias(f, n)
  {
    f.blocks[f.def[n].b].body[f.def[n].i].src
  }

  predicate Before(s: Site, t: Site) {
    s.b < t.b || (s.b == t.b && s.i < t.i)
  }

  /** Instruction i of block b reads n; past the body, the terminator or the copies of an edge out
      of b do. */
  ghost predicate ReadsAt(f: Func, b: int, i: int, n: int) {
    || InsUses(f, b, i, n)
    || (IsBlock(f, b) && i == |f.blocks[b].body| && Local(n) in TermOperands(f.blocks[b].term))
    || (IsBlock(f, b) && i == |f.blocks[b].body| && exists c, j :: Edge(GraphOf(f), b, c) && EdgeUses(f, c, j, b, n))
  }

  ghost predicate Ssa(f: Func) {
    Defined(f) && Dominated(f) && Wired(f)
  }

  /** Blocks are lowered in order, and an alias is registered when its cast is lowered: no code
      that control can reach reads an alias before that. */
  ghost predicate Lowered(f: Func) {
    forall b, i, n :: ReadsAt(f, b, i, n) && Alias(f, n) && Reached(GraphOf(f), b) ==> Before(f.def[n], Site(b, i))
  }

  ghost predicate Ok(f: Func) {
    Ssa(f) && Lowered(f)
  }

  /** The operand that code lowered at t reads for s: aliases registered by then stand for what
      their own source stood for, and anything else has its own word. */
  ghost function ResolveAt(f: Func, s: Src, t: Site): Src
    decreases t.b, t.i
  {
    if s.Local? && Alias(f, s.n) && Before(f.def[s.n], t) then ResolveAt(f, SourceOf(f, s.n), f.def[s.n]) else s
  }

  /** With every alias registered. */
  ghost function Resolve(f: Func, s: Src): (r: Src)
    ensures s.Local? && r.Local? && r.n != s.n ==> Alias(f, s.n)
  {
    ResolveAt(f, s, Site(|f.blocks|, 0))
  }

  /** A read lowered after its alias resolves it fully. */
  lemma {:induction false} ReadResolves(f: Func, s: Src, b: int, i: int)
    requires Lowered(f) && Reached(GraphOf(f), b) && (s.Local? ==> ReadsAt(f, b, i, s.n))
    ensures ResolveAt(f, s, Site(b, i)) == Resolve(f, s)
  {
  }

  /** A read lowered before its alias is left with the alias' own word. */
  lemma {:induction false} EarlyResolves(f: Func, n: int, t: Site)
    requires Alias(f, n) && !Before(f.def[n], t)
    ensures ResolveAt(f, Local(n), t) == Local(n)
  {
  }

  // ----- live ranges -----

  /** A way from b to a block charged with n that does not pass n's definition. */
  ghost predicate LiveTrail(f: Func, n: int, b: int, q: seq<int>) {
    n in f.def && Trail(GraphOf(f), q) && q[0] == b && Charged(f, n, Last(q)) && f.def[n].b !in q
  }

  ghost predicate LiveIn(f: Func, n: int, b: int) {
    exists q :: LiveTrail(f, n, b, q)
  }

  /** No phi of c feeds a phi of c: its phis are written on the incoming edges. */
  ghost predicate Direct(f: Func, c: int) {
    forall j, p :: IsPhi(f, c, j) && p in f.blocks[c].phis[j].args && f.blocks[c].phis[j].args[p].Local? ==>
                     !PhiOf(f, c, f.blocks[c].phis[j].args[p].n)
  }

  /** An edge copy into n at the end of b. */
  ghost predicate EdgeWrites(f: Func, n: int, b: int) {
    n in f.def && f.def[n].i == -1 && Direct(f, f.def[n].b)
    && exists j :: IsPhi(f, f.def[n].b, j) && f.blocks[f.def[n].b].phis[j].res == n
         && b in f.blocks[f.def[n].b].phis[j].args
  }

  /** The live range: blocks on the way to a use, the defining block, and edge-copy writers. */
  ghost predicate Range(f: Func, n: int, b: int) {
    n in f.def && (LiveIn(f, n, b) || b == f.def[n].b || EdgeWrites(f, n, b))
  }

  // ----- words -----

  /** Shared coloured words, block-local pool words, dedicated words and phi shadows. */
  datatype Slot = Vs(k: nat) | Pl(k: nat) | V(n: int) | Sh(n: int)

  type Alloc = map<int, Slot>

  function WordOf(al: Alloc, n: int): Slot {
    if n in al then al[n] else V(n)
  }

  ghost predicate Escapes(f: Func, n: int)
    requires n in f.def
  {
    (exists m :: Casts(f, n, m)) || exists u :: UsedIn(f, u, n) && u != f.def[n].b
  }

  predicate Pooled(al: Alloc, n: int) {
    n in al && al[n].Pl?
  }

  /** Values share a coloured word only when their ranges are disjoint, and a pool word only across
      blocks; only values that never leave their block are pooled. */
  ghost predicate AllocOk(f: Func, al: Alloc) {
    && (forall n :: n in al ==> n in f.def && (al[n].Vs? || al[n].Pl?))
    && (forall n :: Pooled(al, n) ==> n in f.def && f.def[n].i != -1 && !Escapes(f, n))
    && (forall n, m :: Pooled(al, n) && Pooled(al, m) && n != m && al[n] == al[m] ==> f.def[n].b != f.def[m].b)
    && (forall n, m, b :: n in al && m in al && n != m && al[n] == al[m] && al[n].Vs? && Range(f, n, b) ==>
                      !Range(f, m, b))
  }

  /** In block b, r's word is its own. */
  ghost predicate Occupies(f: Func, al: Alloc, r: int, b: int) {
    r !in f.def || (Range(f, r, b) && (Pooled(al, r) ==> f.def[r].b == b))
  }

  lemma {:induction false} Distinct(f: Func, al: Alloc, r: int, m: int, b: int)
    requires AllocOk(f, al) && r != m && Occupies(f, al, r, b) && Occupies(f, al, m, b)
    ensures WordOf(al, r) != WordOf(al, m)
  {
  }

  // ----- ranges follow aliases -----

  /** A definition dominates every block charged with it. */
  lemma {:induction false} ChargedDominated(f: Func, n: int, u: int, k: nat)
    requires Ssa(f) && n in f.def && ChargedBy(f, n, u, k)
    ensures Dominates(GraphOf(f), f.def[n].b, u)
    decreases k
  {
    if !UsedIn(f, u, n) {
      var m :| Casts(f, n, m) && ChargedBy(f, m, u, k - 1);
      CastUses(f, n, m);
      ChargedDominated(f, m, u, k - 1);
      DominatesTrans(GraphOf(f), f.def[n].b, f.def[m].b, u);
    }
  }

  lemma {:induction false} CastUses(f: Func, n: int, m: int)
    requires Casts(f, n, m)
    ensures UsedIn(f, f.def[m].b, n) && InsUses(f, f.def[m].b, f.def[m].i, n)
  {
    assert InsUses(f, f.def[m].b, f.def[m].i, n);
  }

  /** Reading a cast of n reads n's word. */
  lemma {:induction false} CastCharges(f: Func, n: int, m: int, u: int)
    requires Casts(f, n, m) && Charged(f, m, u)
    ensures Charged(f, n, u)
  {
    var k: nat :| ChargedBy(f, m, u, k);
    assert ChargedBy(f, n, u, k + 1);
  }

  /** What an alias stands for is defined before it, dominates it, and is charged with its uses. */
  lemma {:induction false} AliasOf(f: Func, n: int, r: int)
    requires Ok(f) && Resolve(f, Local(n)) == Local(r) && r != n && r in f.def && Reached(GraphOf(f), f.def[n].b)
    ensures n in f.def && Dominates(GraphOf(f), f.def[r].b, f.def[n].b)
    ensures f.def[r].b == f.def[n].b ==> f.def[r].i < f.def[n].i
    ensures Charged(f, r, f.def[n].b) && (exists m :: Casts(f, r, m))
    ensures forall u :: Charged(f, n, u) ==> Charged(f, r, u)
    decreases if n in f.def then f.def[n].b else 0, if n in f.def then f.def[n].i + 1 else 0
  {
    assert Alias(f, n) && Resolve(f, Local(n)) == ResolveAt(f, SourceOf(f, n), f.def[n]);
    var s := SourceOf(f, n).n;
    assert Casts(f, s, n);
    CastUses(f, s, n);
    ReadResolves(f, Local(s), f.def[n].b, f.def[n].i);
    assert ChargedBy(f, s, f.def[n].b, 0);
    forall u | Charged(f, n, u) ensures Charged(f, s, u) { CastCharges(f, s, n, u); }
    if s != r {
      Dominator(f, s, f.def[n].b);
      AliasOf(f, s, r);
      DominatesTrans(GraphOf(f), f.def[r].b, f.def[s].b, f.def[n].b);
      if f.def[r].b == f.def[n].b { DominatesOnce(GraphOf(f), f.def[r].b, f.def[s].b); }
    }
  }

  /** What dominates a reached block is reached. */
  lemma {:induction false} Dominator(f: Func, n: int, b: int)
    requires n in f.def && Dominates(GraphOf(f), f.def[n].b, b) && Reached(GraphOf(f), b)
    ensures Reached(GraphOf(f), f.def[n].b)
  {
    var p :| PathTo(GraphOf(f), p, b);
    var i :| 0 <= i < |p| && p[i] == f.def[n].b;
    Prefix(GraphOf(f), p, i);
  }

  /** A value live in a reached block has a reached definition. */
  lemma {:induction false} LiveReached(f: Func, n: int, b: int, p: seq<int>)
    requires Ssa(f) && LiveIn(f, n, b) && PathTo(GraphOf(f), p, b)
    ensures n in f.def && Reached(GraphOf(f), f.def[n].b)
  {
    var q :| LiveTrail(f, n, b, q);
    Join(GraphOf(f), p, q);
    assert PathTo(GraphOf(f), p + q[1..], Last(q));
    var k: nat :| ChargedBy(f, n, Last(q), k);
    ChargedDominated(f, n, Last(q), k);
    Dominator(f, n, Last(q));
  }

  /** Control never comes back to what an alias stands for while the alias is live. */
  lemma {:induction false} NotThrough(f: Func, n: int, r: int, p: seq<int>)
    requires Ok(f) && Resolve(f, Local(n)) == Local(r) && r != n && r in f.def && PathTo(GraphOf(f), p, f.def[r].b)
    requires Reached(GraphOf(f), f.def[n].b)
    ensures n in f.def && !LiveIn(f, n, f.def[r].b)
  {
    AliasOf(f, n, r);
    if LiveIn(f, n, f.def[r].b) {
      var q :| LiveTrail(f, n, f.def[r].b, q);
      var k: nat :| ChargedBy(f, n, Last(q), k);
      ChargedDominated(f, n, Last(q), k);
      NoWayAround(GraphOf(f), p, f.def[r].b, f.def[n].b, Last(q), q);
      assert false;
    }
  }

  /** Nor anywhere on the way from there to a use. */
  lemma {:induction false} TrailMisses(f: Func, n: int, r: int, b: int, p: seq<int>, q: seq<int>)
    requires Ok(f) && Resolve(f, Local(n)) == Local(r) && r != n && r in f.def && LiveTrail(f, n, b, q)
    requires PathTo(GraphOf(f), p, b)
    requires Reached(GraphOf(f), f.def[n].b)
    ensures f.def[r].b !in q
  {
    hide Ok, Charged, Resolve;
    forall i | 0 <= i < |q| ensures q[i] != f.def[r].b {
      if q[i] == f.def[r].b {
        Join(GraphOf(f), p, q[..i + 1]);
        assert LiveTrail(f, n, q[i], q[i..]);
        NotThrough(f, n, r, p + q[..i + 1][1..]);
        assert false;
      }
    }
  }

  /** Wherever a value is live, so is the word it resolves to. */
  lemma {:induction false} LiveRange(f: Func, n: int, r: int, b: int, p: seq<int>)
    requires Ok(f) && Resolve(f, Local(n)) == Local(r) && r in f.def && LiveIn(f, n, b) && PathTo(GraphOf(f), p, b)
    ensures Range(f, r, b) && (n != r ==> f.def[r].b != b)
  {
    LiveReached(f, n, b, p);
    hide Ok, Charged, Resolve;
    if n != r {
      AliasOf(f, n, r);
      var q :| LiveTrail(f, n, b, q);
      TrailMisses(f, n, r, b, p, q);
      assert LiveTrail(f, r, b, q);
    }
  }

  /** A pooled value is read in its own block only. */
  lemma {:induction false} PoolCharged(f: Func, al: Alloc, n: int, u: int)
    requires AllocOk(f, al) && Pooled(al, n) && Charged(f, n, u)
    ensures u == f.def[n].b
  {
    var k: nat :| ChargedBy(f, n, u, k);
    assert UsedIn(f, u, n);
  }

  /** It is live in no other block, and nothing is an alias of it. */
  lemma {:induction false} PoolLocal(f: Func, al: Alloc, n: int, b: int)
    requires AllocOk(f, al) && Pooled(al, n)
    ensures !LiveIn(f, n, b) && !exists m :: Casts(f, n, m)
  {
    forall q ensures !LiveTrail(f, n, b, q) {
      if LiveTrail(f, n, b, q) {
        PoolCharged(f, al, n, Last(q));
        assert false;
      }
    }
  }

  /** A value live into a block holds its word throughout it. */
  lemma {:induction false} LiveOccupies(f: Func, al: Alloc, n: int, r: int, b: int, p: seq<int>)
    requires Ok(f) && AllocOk(f, al) && Resolve(f, Local(n)) == Local(r) && LiveIn(f, n, b) && PathTo(GraphOf(f), p, b)
    ensures Occupies(f, al, r, b) && (n != r && r in f.def ==> f.def[r].b != b)
  {
    if r in f.def {
      LiveReached(f, n, b, p);
      LiveRange(f, n, r, b, p);
      if Pooled(al, r) {
        PoolLocal(f, al, r, b);
        if n != r { AliasOf(f, n, r); }
      }
    }
  }

  /** So does a value defined in the block. */
  lemma {:induction false} DefOccupies(f: Func, al: Alloc, n: int, r: int)
    requires Ok(f) && AllocOk(f, al) && Resolve(f, Local(n)) == Local(r) && n in f.def
    requires Reached(GraphOf(f), f.def[n].b)
    ensures Occupies(f, al, r, f.def[n].b)
  {
    if r in f.def && n != r {
      AliasOf(f, n, r);
      var b := f.def[n].b;
      if Pooled(al, r) { PoolLocal(f, al, r, b); }
      if b != f.def[r].b { assert LiveTrail(f, r, b, [b]); }
    }
  }
}
