/** The passes of the range analysis over one function (host/dmacc/facts.go): each update keeps
    the bounds sound for every execution, so every intermediate state is sound. */
module Facts {
  import opened Words
  import opened Cfg
  import opened Bounds
  import opened Executions
  import opened Narrowing
  import Dominators

  /** What the rest of the program is known to do: bounds on this function's parameters and on
      every callee's returned word. */
  datatype Context = Context(param: seq<Word>, ret: Caps)

  ghost predicate Respects(f: Func, c: Context, e: Exec) {
    && CallsBounded(f, c.ret, e)
    && forall t, i :: Visit(e, t) && 0 <= i < |f.params| && i < |c.param| ==> Get(e.envs[t], f.params[i]) <= c.param[i]
  }

  /** Sound for every execution the context allows. */
  ghost predicate Sound(f: Func, c: Context, fs: FactSet) {
    |fs.blk| == |f.blocks| && forall e :: Proper(f, e) && Respects(f, c, e) ==> SoundOn(f, fs, e)
  }

  // ----- value bounds -----

  function ArgBounds(fs: FactSet, b: int, args: seq<Val>): seq<Word> {
    seq(|args|, i requires 0 <= i < |args| => BoundAt(fs, b, args[i]))
  }

  /** A definition's rule bounds its value wherever it is visible, around loops too. */
  lemma {:induction false} ValueSound(f: Func, c: Context, fs: FactSet, e: Exec, t: int, n: int)
    requires Ok(f) && Proper(f, e) && Respects(f, c, e) && SoundOn(f, fs, e) && DefinedBy(f, n) && Visible(f, e, t, n)
    ensures var d := DefOf(f, n);
              |d.args| >= Arity(d.op)
              && Get(e.envs[t], n) <= InsBound(d, ArgBounds(fs, f.def[n].b, d.args), RetOf(c.ret, d))
  {
    var d, B := DefOf(f, n), f.def[n].b;
    var s := LastVisit(f, e, t, B);
    assert Visible(f, e, s, n) by { Prefix(GraphOf(f), e.path, s); SelfDominates(GraphOf(f), B); }
    Unchanged(f, e, s, t, n);
    Consistent(f, e, s, n);
    var ws :| EvalsAll(e.envs[s], d.args, ws) && Yields(d, ws, Get(e.envs[s], n));
    var bs := ArgBounds(fs, B, d.args);
    forall i | 0 <= i < |ws| ensures ws[i] <= bs[i] {
      assert Evals(e.envs[s], d.args[i], ws[i]) && ValOk(f, d.args[i], B, f.def[n].i);
      BoundSound(f, fs, e, s, d.args[i], ws[i]);
    }
    InsSound(f, e, s, n, ws, bs, RetOf(c.ret, d));
  }

  lemma {:induction false} SelfDominates(g: Graph, b: int)
    ensures Dominates(g, b, b)
  {
  }

  /** What an edge's narrowing must be: true whenever the edge is taken. */
  ghost predicate EdgeFact(f: Func, c: Context, p: int, h: int, m: Caps) {
    forall e, t :: Proper(f, e) && Respects(f, c, e) && Visit(e, t) && t < |e.path| - 1 && e.path[t] == p
                   && e.path[t + 1] == h ==>
                     Narrowed(f, e, t, m)
  }

  lemma {:induction false} EdgeFactHolds(f: Func, c: Context, fs: FactSet, p: int, h: int)
    requires Ok(f) && Sound(f, c, fs)
    ensures EdgeFact(f, c, p, h, EdgeNarrow(f, fs, p, h))
  {
    forall e, t | Proper(f, e) && Respects(f, c, e) && Visit(e, t) && t < |e.path| - 1 && e.path[t] == p
        && e.path[t + 1] == h
      ensures Narrowed(f, e, t, EdgeNarrow(f, fs, p, h))
    {
      EdgeNarrowSound(f, fs, e, t);
    }
  }

  /** k bounds what phi j of block b receives on every edge. */
  ghost predicate PhiCap(f: Func, c: Context, fs: FactSet, b: int, j: int, k: Word)
    requires IsPhi(f, b, j)
  {
    var phi := f.blocks[b].phis[j];
    forall p :: p in phi.args ==>
                  exists m :: EdgeFact(f, c, p, b, m) && EdgeBound(f, fs, c.ret, phi.args[p], p, m, EDGEDEPTH) <= k
  }

  /** A phi's value is one of its incoming values, on its own edge. */
  lemma {:induction false} PhiSound(f: Func, c: Context, fs: FactSet, e: Exec, t: int, n: int, j: int, k: Word)
    requires Ok(f) && Proper(f, e) && Respects(f, c, e) && SoundOn(f, fs, e) && PhiAt(f, n, j)
    requires PhiCap(f, c, fs, f.def[n].b, j, k) && Visible(f, e, t, n)
    ensures Get(e.envs[t], n) <= Min(k, TypeMax(f.blocks[f.def[n].b].phis[j].ty))
  {
    var B := f.def[n].b;
    var phi := f.blocks[B].phis[j];
    var s := LastVisit(f, e, t, B);
    assert s > 0;
    Unchanged(f, e, s, t, n);
    var p := e.path[s - 1];
    assert p in phi.args && Evals(e.envs[s - 1], phi.args[p], Get(e.envs[s], n));
    var m :| EdgeFact(f, c, p, B, m) && EdgeBound(f, fs, c.ret, phi.args[p], p, m, EDGEDEPTH) <= k;
    assert Visit(e, s - 1) && e.path[s - 1 + 1] == B;
    assert Narrowed(f, e, s - 1, m);
    assert ValOk(f, phi.args[p], p, |f.blocks[p].body|);
    if phi.args[p].Local? { TermValVisible(f, e, s - 1, phi.args[p]); }
    EdgeBoundSound(f, fs, c.ret, e, s - 1, phi.args[p], Get(e.envs[s], n), m, EDGEDEPTH);
    assert n in f.types && f.types[n] == phi.ty;
    StoredAt(f, e, t, n);
  }

  /** Replacing one value bound by a true one. */
  lemma {:induction false} MaxUpdate(f: Func, c: Context, fs: FactSet, n: int, k: Word)
    requires Sound(f, c, fs)
    requires forall e, t :: Proper(f, e) && Respects(f, c, e) && SoundOn(f, fs, e) && Visible(f, e, t, n) ==>
                           Get(e.envs[t], n) <= k
    ensures Sound(f, c, FactSet(fs.max[n := k], fs.blk))
  {
    hide ExecOk, Respects, Narrowed;
    var fs' := FactSet(fs.max[n := k], fs.blk);
    forall e | Proper(f, e) && Respects(f, c, e) ensures SoundOn(f, fs', e) {
      assert SoundOn(f, fs, e);
    }
  }

  // ----- block bounds -----

  /** Bounds proved at a dominator hold in the blocks it dominates. */
  lemma {:induction false} InheritSound(f: Func, e: Exec, s: int, t: int, m: Caps)
    requires Proper(f, e) && 0 <= s < t && Visit(e, t) && (forall r :: s < r <= t ==> e.path[r] != e.path[s])
    requires Dominates(GraphOf(f), e.path[s], e.path[t]) && Narrowed(f, e, s, m)
    ensures Narrowed(f, e, t, m)
  {
    forall n | n in m ensures Visible(f, e, t, n) && Get(e.envs[t], n) <= m[n] {
      Stable(f, e, s, t, n);
      if n in f.def {
        DominatesTrans(GraphOf(f), f.def[n].b, e.path[s], e.path[t]);
        if f.def[n].b != e.path[s] { NoRedefinition(f, e, s, t, f.def[n].b, e.path[s]); }
      }
    }
  }

  function Tighten(a: Caps, b: Caps): Caps {
    map n | n in a.Keys + b.Keys :: Min(Cap(a, n), Cap(b, n))
  }

  /** A tree whose parents dominate. */
  ghost predicate DomTree(g: Graph, idom: seq<int>) {
    |idom| == |g| && forall b :: 0 <= b < |g| && idom[b] >= 0 ==>
                                   idom[b] < |g| && idom[b] != b && Dominates(g, idom[b], b)
  }

  /** A block's bounds: its dominator's, and what the edge from it proves when that edge is the only
      way in. */
  function BlockCaps(f: Func, fs: FactSet, idom: seq<int>, preds: seq<seq<int>>, b: int): Caps
    requires |idom| == |preds| == |f.blocks| == |fs.blk| && 0 <= b < |idom| && idom[b] < |fs.blk|
  {
    var p := idom[b];
    if p < 0 then map[]
    else if preds[b] == [p] then Tighten(fs.blk[p], EdgeNarrow(f, fs, p, b))
    else fs.blk[p]
  }

  /** What a condition proves depends on the bounds of its own block only. */
  lemma {:induction false} CondLocal(f: Func, fs: FactSet, fs': FactSet, m: Caps, cond: Val, taken: bool, at: int,
                                     depth: nat)
    requires fs'.max == fs.max && |fs'.blk| == |fs.blk| && (0 <= at < |fs.blk| ==> fs'.blk[at] == fs.blk[at])
    ensures CondBounds(f, fs', m, cond, taken, at, depth) == CondBounds(f, fs, m, cond, taken, at, depth)
    decreases depth, 0
  {
    if depth > 0 && cond.Local? && DefinedBy(f, cond.n) && |DefOf(f, cond.n).args| >= Arity(DefOf(f, cond.n).op) {
      var d, k := DefOf(f, cond.n), depth - 1;
      hide EdgeBounds, DefOf, DefinedBy;
      match d.op
      case Icmp(_) =>
        assert BoundAt(fs', at, d.args[0]) == BoundAt(fs, at, d.args[0]);
        assert BoundAt(fs', at, d.args[1]) == BoundAt(fs, at, d.args[1]);
      case Select =>
        TwoLocal(f, fs, fs', m, d.args[0], d.args[1], true, at, k);
        TwoLocal(f, fs, fs', m, d.args[0], d.args[2], false, at, k);
      case And => TwoLocal(f, fs, fs', m, d.args[0], d.args[1], true, at, k);
      case Or => TwoLocal(f, fs, fs', m, d.args[0], d.args[1], false, at, k);
      case Xor =>
        CondLocal(f, fs, fs', m, d.args[0], !taken, at, k);
        CondLocal(f, fs, fs', m, d.args[1], !taken, at, k);
      case Zext => CondLocal(f, fs, fs', m, d.args[0], taken, at, k);
      case _ =>
    }
  }

  lemma {:induction false} TwoLocal(f: Func, fs: FactSet, fs': FactSet, m: Caps, x: Val, y: Val, taken: bool, at: int,
                                    depth: nat)
    requires fs'.max == fs.max && |fs'.blk| == |fs.blk| && (0 <= at < |fs.blk| ==> fs'.blk[at] == fs.blk[at])
    ensures CondBounds(f, fs', CondBounds(f, fs', m, x, taken, at, depth), y, taken, at, depth)
         == CondBounds(f, fs, CondBounds(f, fs, m, x, taken, at, depth), y, taken, at, depth)
    decreases depth, 1
  {
    hide CondBounds;
    CondLocal(f, fs, fs', m, x, taken, at, depth);
    CondLocal(f, fs, fs', CondBounds(f, fs, m, x, taken, at, depth), y, taken, at, depth);
  }

  lemma {:induction false} CapsLocal(f: Func, max: Caps, was: seq<Caps>, blk: seq<Caps>, idom: seq<int>,
                                     preds: seq<seq<int>>, rpo: seq<int>, i: nat, j: nat)
    requires |idom| == |preds| == |f.blocks| == |was| == |blk| && j <= i < |rpo| && Dominators.TopDown(rpo, idom)
    requires forall b :: 0 <= b < |idom| ==> idom[b] < |blk|
    requires blk == was[rpo[i] := BlockCaps(f, FactSet(max, was), idom, preds, rpo[i])]
    requires j < i ==> was[rpo[j]] == BlockCaps(f, FactSet(max, was), idom, preds, rpo[j])
    ensures blk[rpo[j]] == BlockCaps(f, FactSet(max, blk), idom, preds, rpo[j])
  {
    var b := rpo[j];
    var p := idom[b];
    if p >= 0 {
      assert p in rpo[..j];
      assert p != rpo[i];
      hide EdgeNarrow, Tighten;
      EdgeLocal(f, FactSet(max, was), FactSet(max, blk), p, b);
    }
  }

  lemma {:induction false} EdgeLocal(f: Func, fs: FactSet, fs': FactSet, p: int, h: int)
    requires fs'.max == fs.max && |fs'.blk| == |fs.blk| && (0 <= p < |fs.blk| ==> fs'.blk[p] == fs.blk[p])
    ensures EdgeNarrow(f, fs', p, h) == EdgeNarrow(f, fs, p, h)
  {
    hide CondBounds;
    if IsBlock(f, p) && f.blocks[p].term.Br? {
      CondLocal(f, fs, fs', map[], f.blocks[p].term.cond, f.blocks[p].term.yes == h, p, CONDDEPTH);
    }
  }

  /** A block's bounds are no looser than its dominator's, nor than what its only edge proves. */
  lemma {:induction false} CapsInherit(f: Func, fs: FactSet, idom: seq<int>, preds: seq<seq<int>>, b: int, n: int)
    requires |idom| == |preds| == |f.blocks| == |fs.blk| && 0 <= b < |idom| && 0 <= idom[b] < |fs.blk|
    ensures Cap(BlockCaps(f, fs, idom, preds, b), n) <= Cap(fs.blk[idom[b]], n)
    ensures preds[b] == [idom[b]] ==>
              Cap(BlockCaps(f, fs, idom, preds, b), n) <= Cap(EdgeNarrow(f, fs, idom[b], b), n)
  {
    hide EdgeNarrow;
  }

  ghost predicate PredsOk(g: Graph, preds: seq<seq<int>>) {
    |preds| == |g| && forall b, p :: 0 <= b < |g| && Edge(g, p, b) ==> p in preds[b]
  }

  /** The dominator's bounds. */
  lemma {:induction false} ParentSound(f: Func, fs: FactSet, p: int, e: Exec, t: int)
    requires Proper(f, e) && SoundOn(f, fs, e) && Visit(e, t) && 0 <= p < |fs.blk| && p != e.path[t]
    requires Dominates(GraphOf(f), p, e.path[t])
    ensures Narrowed(f, e, t, fs.blk[p])
  {
    hide Narrowed;
    var s := LastVisit(f, e, t, p);
    assert Visit(e, s);
    InheritSound(f, e, s, t, fs.blk[p]);
  }

  /** What the only edge in proves. */
  lemma {:induction false} OnlyEdgeSound(f: Func, fs: FactSet, preds: seq<seq<int>>, p: int, e: Exec, t: int)
    requires Ok(f) && Proper(f, e) && SoundOn(f, fs, e) && Visit(e, t) && p != e.path[t]
    requires Dominates(GraphOf(f), p, e.path[t])
    requires PredsOk(GraphOf(f), preds) && preds[e.path[t]] == [p]
    ensures Narrowed(f, e, t, EdgeNarrow(f, fs, p, e.path[t]))
  {
    hide Narrowed, Ok, SoundOn, Carries, PhisHold, BodiesHold, EdgesHold, Given, EdgeNarrow;
    Prefix(GraphOf(f), e.path, t);
    assert t > 0;
    assert Edge(GraphOf(f), e.path[t - 1], e.path[t]);
    assert e.path[t - 1] == p;
    EdgeNarrowSound(f, fs, e, t - 1);
    InheritSound(f, e, t - 1, t, EdgeNarrow(f, fs, p, e.path[t]));
  }

  lemma {:induction false} BlockSound(f: Func, c: Context, fs: FactSet, idom: seq<int>, preds: seq<seq<int>>, b: int,
                                      e: Exec, t: int)
    requires Ok(f) && Sound(f, c, fs) && DomTree(GraphOf(f), idom) && PredsOk(GraphOf(f), preds) && IsBlock(f, b)
    requires Proper(f, e) && Respects(f, c, e) && Visit(e, t) && e.path[t] == b
    ensures Narrowed(f, e, t, BlockCaps(f, fs, idom, preds, b))
  {
    hide Ok, ExecOk, Respects, SoundOn, EdgeNarrow;
    var p := idom[b];
    if p >= 0 {
      assert SoundOn(f, fs, e);
      ParentSound(f, fs, p, e, t);
      if preds[b] == [p] { OnlyEdgeSound(f, fs, preds, p, e, t); }
    }
  }

  lemma {:induction false} BlockUpdate(f: Func, c: Context, fs: FactSet, idom: seq<int>, preds: seq<seq<int>>, b: int)
    requires Ok(f) && Sound(f, c, fs) && DomTree(GraphOf(f), idom) && PredsOk(GraphOf(f), preds) && IsBlock(f, b)
    ensures Sound(f, c, FactSet(fs.max, fs.blk[b := BlockCaps(f, fs, idom, preds, b)]))
  {
    hide ExecOk, Respects, Narrowed, BlockCaps;
    var fs' := FactSet(fs.max, fs.blk[b := BlockCaps(f, fs, idom, preds, b)]);
    forall e | Proper(f, e) && Respects(f, c, e) ensures SoundOn(f, fs', e) {
      assert SoundOn(f, fs, e);
      forall t | Visit(e, t) && 0 <= e.path[t] < |fs'.blk| ensures Narrowed(f, e, t, fs'.blk[e.path[t]]) {
        if e.path[t] == b { BlockSound(f, c, fs, idom, preds, b, e, t); }
      }
    }
  }

  // ----- how tight a sweep is -----

  /** Bounds no looser than others, block by block. */
  ghost predicate Tighter(fs: FactSet, fs0: FactSet) {
    && (forall n :: Cap(fs.max, n) <= Cap(fs0.max, n))
    && forall b, n :: 0 <= b < |fs0.blk| ==> b < |fs.blk| && Cap(fs.blk[b], n) <= Cap(fs0.blk[b], n)
  }

  lemma {:induction false} BoundTighter(fs: FactSet, fs0: FactSet, b: int, v: Val)
    requires Tighter(fs, fs0)
    ensures BoundAt(fs, b, v) <= BoundAt(fs0, b, v)
  {
  }

  lemma {:induction false} RuleTighter(fs: FactSet, fs0: FactSet, b: int, d: Ins, ret: Word)
    requires Tighter(fs, fs0) && |d.args| >= Arity(d.op)
    ensures InsBound(d, ArgBounds(fs, b, d.args), ret) <= InsBound(d, ArgBounds(fs0, b, d.args), ret)
  {
    forall i | 0 <= i < |d.args| ensures BoundAt(fs, b, d.args[i]) <= BoundAt(fs0, b, d.args[i]) {
      BoundTighter(fs, fs0, b, d.args[i]);
    }
    hide InsBound, BoundAt;
    InsMono(d, ArgBounds(fs, b, d.args), ArgBounds(fs0, b, d.args), ret);
  }

  /** Instruction i of block b is bounded by its rule on its operands' bounds in fs. */
  ghost predicate Ruled(f: Func, c: Context, fs: FactSet, max: Caps, b: int, i: int)
    requires IsIns(f, b, i)
  {
    var d := f.blocks[b].body[i];
    d.res >= 0 && |d.args| >= Arity(d.op) ==>
      Cap(max, d.res) <= InsBound(d, ArgBounds(fs, b, d.args), RetOf(c.ret, d))
  }

  ghost predicate AllRuled(f: Func, c: Context, fs: FactSet, max: Caps) {
    forall b, i :: IsIns(f, b, i) ==> Ruled(f, c, fs, max, b, i)
  }

  /** What every incoming value's bound in its own block is at most. */
  ghost predicate Joins(fs: FactSet, phi: Phi, k: Word) {
    phi.args != map[] && forall p :: p in phi.args ==> BoundAt(fs, p, phi.args[p]) <= k
  }

  /** Phi j of block b is bounded by its type and by any common bound of its incoming values in fs. */
  ghost predicate Met(f: Func, fs: FactSet, max: Caps, b: int, j: int)
    requires IsPhi(f, b, j)
  {
    var phi := f.blocks[b].phis[j];
    forall k :: Joins(fs, phi, k) ==> Cap(max, phi.res) <= Min(k, TypeMax(phi.ty))
  }

  ghost predicate AllMet(f: Func, fs: FactSet, max: Caps) {
    forall b, j :: IsPhi(f, b, j) ==> Met(f, fs, max, b, j)
  }

  lemma {:induction false} EdgeNoMore(f: Func, fs: FactSet, ret: Caps, v: Val, p: int, m: Caps, depth: nat)
    ensures EdgeBound(f, fs, ret, v, p, m, depth) <= BoundAt(fs, p, v)
  {
    hide InsBound, BoundAt;
  }

  lemma {:induction false} LowerStays(f: Func, c: Context, fs: FactSet, max: Caps, max': Caps)
    requires forall n :: Cap(max', n) <= Cap(max, n)
    ensures forall b, i :: IsIns(f, b, i) && Ruled(f, c, fs, max, b, i) ==> Ruled(f, c, fs, max', b, i)
    ensures forall b, j :: IsPhi(f, b, j) && Met(f, fs, max, b, j) ==> Met(f, fs, max', b, j)
  {
    hide InsBound, BoundAt, Joins;
    forall b, j | IsPhi(f, b, j) && Met(f, fs, max, b, j) ensures Met(f, fs, max', b, j) {
      var phi := f.blocks[b].phis[j];
      forall k | Joins(fs, phi, k) ensures Cap(max', phi.res) <= Min(k, TypeMax(phi.ty)) {}
    }
  }

  // ----- the passes -----

  const PASSES: nat := 8

  predicate Distinct(ns: seq<int>) {
    forall i, j :: 0 <= i < j < |ns| ==> ns[i] != ns[j]
  }

  type EdgeCache = map<(int, int), Caps>

  ghost predicate CacheOk(f: Func, c: Context, ec: EdgeCache) {
    forall p, h :: (p, h) in ec ==> EdgeFact(f, c, p, h, ec[(p, h)])
  }

  class Table {
    const f: Func
    const c: Context
    var max: Caps
    var blk: seq<Caps>

    ghost predicate Valid()
      reads this
    {
      Ok(f) && Sound(f, c, FactSet(max, blk))
    }

    /** Nothing known but the parameter seeds. */
    constructor (f: Func, c: Context)
      requires Ok(f) && |c.param| == |f.params|
      ensures Valid() && this.f == f && this.c == c
      ensures Distinct(f.params) ==> forall i :: 0 <= i < |f.params| ==> Cap(max, f.params[i]) <= c.param[i]
    {
      this.f, this.c := f, c;
      max, blk := map[], seq(|f.blocks|, _ => map[]);
      new;
      for i := 0 to |f.params|
        invariant blk == seq(|f.blocks|, _ => map[])
        invariant forall n :: n in max ==> exists k :: 0 <= k < i && f.params[k] == n && max[n] == c.param[k]
        invariant Distinct(f.params) ==> forall k :: 0 <= k < i ==> Cap(max, f.params[k]) <= c.param[k]
      {
        if c.param[i] < TOP { max := max[f.params[i] := c.param[i]]; }
      }
      forall e | Proper(f, e) && Respects(f, c, e) ensures SoundOn(f, FactSet(max, blk), e) {
      }
    }

    /** Recomputes the block bounds down the dominator tree: each is then exactly what its dominator
        and its only edge prove. */
    method NarrowEdges(rpo: seq<int>, idom: seq<int>, preds: seq<seq<int>>) returns (changed: bool)
      requires Valid() && DomTree(GraphOf(f), idom) && PredsOk(GraphOf(f), preds)
      requires Dominators.TopDown(rpo, idom) && forall i :: 0 <= i < |rpo| ==> IsBlock(f, rpo[i])
      modifies this`blk
      ensures Valid() && max == old(max) && (!changed ==> blk == old(blk)) && |blk| == |f.blocks|
      ensures forall i :: 0 <= i < |rpo| ==> blk[rpo[i]] == BlockCaps(f, FactSet(max, blk), idom, preds, rpo[i])
    {
      hide SoundOn, ExecOk, Respects, Dominates, BlockCaps;
      changed := false;
      for i := 0 to |rpo|
        invariant Valid() && max == old(max) && |blk| == |f.blocks| && (!changed ==> blk == old(blk))
        invariant forall j :: 0 <= j < i ==> blk[rpo[j]] == BlockCaps(f, FactSet(max, blk), idom, preds, rpo[j])
      {
        var b := rpo[i];
        BlockUpdate(f, c, FactSet(max, blk), idom, preds, b);
        var m := BlockCaps(f, FactSet(max, blk), idom, preds, b);
        ghost var was := blk;
        if blk[b] != m {
          blk := blk[b := m];
          changed := true;
        }
        forall j | 0 <= j <= i ensures blk[rpo[j]] == BlockCaps(f, FactSet(max, blk), idom, preds, rpo[j]) {
          CapsLocal(f, max, was, blk, idom, preds, rpo, i, j);
        }
      }
    }

    /** What an edge proves, remembered for the sweep: an older answer is looser, never wrong. */
    method CachedEdge(p: int, h: int, ec: EdgeCache) returns (m: Caps, ec': EdgeCache)
      requires Valid() && CacheOk(f, c, ec)
      ensures CacheOk(f, c, ec') && EdgeFact(f, c, p, h, m)
    {
      hide Sound, EdgeFact;
      if (p, h) in ec { return ec[(p, h)], ec; }
      EdgeFactHolds(f, c, FactSet(max, blk), p, h);
      m := EdgeNarrow(f, FactSet(max, blk), p, h);
      ec' := ec[(p, h) := m];
    }

    /** The meet of a phi's incoming bounds, each on its own edge. */
    method PhiBound(b: int, j: int, ec: EdgeCache) returns (k: Word, ec': EdgeCache)
      requires Valid() && IsPhi(f, b, j) && CacheOk(f, c, ec)
      ensures CacheOk(f, c, ec')
      ensures exists raw :: PhiCap(f, c, FactSet(max, blk), b, j, raw) && Min(raw, TypeMax(f.blocks[b].phis[j].ty)) <= k
      ensures forall q :: Joins(FactSet(max, blk), f.blocks[b].phis[j], q) ==>
                            k <= Min(q, TypeMax(f.blocks[b].phis[j].ty))
    {
      hide Sound, EdgeFact, CacheOk, EdgeBound, BoundAt;
      var phi := f.blocks[b].phis[j];
      var fs := FactSet(max, blk);
      ec' := ec;
      if phi.args == map[] {
        k := TOP;
        assert PhiCap(f, c, fs, b, j, TOP);
        return;
      }
      var raw: Word := 0;
      var todo := phi.args.Keys;
      while todo != {}
        invariant todo <= phi.args.Keys && CacheOk(f, c, ec')
        invariant forall p :: p in phi.args && p !in todo ==>
                                exists m :: EdgeFact(f, c, p, b, m)
                                  && EdgeBound(f, fs, c.ret, phi.args[p], p, m, EDGEDEPTH) <= raw
        invariant forall q :: Joins(fs, phi, q) ==> raw <= q
        decreases |todo|
      {
        Inhabited(todo);
        var p :| p in todo;
        var m;
        m, ec' := CachedEdge(p, b, ec');
        var w := EdgeBound(f, fs, c.ret, phi.args[p], p, m, EDGEDEPTH);
        EdgeNoMore(f, fs, c.ret, phi.args[p], p, m, EDGEDEPTH);
        raw := Max(raw, w);
        todo := todo - {p};
      }
      assert PhiCap(f, c, fs, b, j, raw);
      k := Min(raw, TypeMax(phi.ty));
    }

    /** Lowers one value's bound to a true one. */
    method Lower(n: int, k: Word) returns (changed: bool)
      requires Valid()
      requires forall e, t :: Proper(f, e) && Respects(f, c, e) && SoundOn(f, FactSet(max, blk), e)
                              && Visible(f, e, t, n) ==>
                                Get(e.envs[t], n) <= k
      modifies this`max
      ensures Valid() && (!changed ==> max == old(max)) && forall m :: Cap(max, m) <= Cap(old(max), m)
      ensures Cap(max, n) <= k
    {
      hide Sound;
      changed := n !in max || k < max[n];
      if changed {
        MaxUpdate(f, c, FactSet(max, blk), n, k);
        max := max[n := k];
      }
    }

    /** The phis of one block: each meets its incoming values. */
    method SweepPhis(b: int, ec: EdgeCache) returns (changed: bool, ec': EdgeCache)
      requires Valid() && IsBlock(f, b) && CacheOk(f, c, ec)
      modifies this`max
      ensures Valid() && CacheOk(f, c, ec') && (!changed ==> max == old(max))
      ensures forall m :: Cap(max, m) <= Cap(old(max), m)
      ensures forall j :: IsPhi(f, b, j) ==> Met(f, FactSet(old(max), blk), max, b, j)
    {
      hide Sound, CacheOk, Met, BoundAt, Joins;
      changed, ec' := false, ec;
      ghost var fs0 := FactSet(max, blk);
      for j := 0 to |f.blocks[b].phis|
        invariant Valid() && CacheOk(f, c, ec') && (!changed ==> max == old(max))
        invariant forall m :: Cap(max, m) <= Cap(old(max), m)
        invariant forall i :: 0 <= i < j ==> IsPhi(f, b, i) && Met(f, fs0, max, b, i)
      {
        assert IsPhi(f, b, j);
        var n := f.blocks[b].phis[j].res;
        var k;
        k, ec' := PhiBound(b, j, ec');
        PhiUpdate(f, c, FactSet(max, blk), b, j, k);
        ghost var was := max;
        var ch := Lower(n, k);
        LowerStays(f, c, fs0, was, max);
        PhiMet(f, fs0, FactSet(was, blk), max, b, j, k);
        changed := changed || ch;
      }
    }

    /** The instructions of one block: each result is bounded by its rule. */
    method SweepBody(b: int) returns (changed: bool)
      requires Valid() && IsBlock(f, b)
      modifies this`max
      ensures Valid() && (!changed ==> max == old(max)) && forall m :: Cap(max, m) <= Cap(old(max), m)
      ensures forall i :: IsIns(f, b, i) ==> Ruled(f, c, FactSet(old(max), blk), max, b, i)
    {
      hide Sound, Ruled, BoundAt, InsBound;
      changed := false;
      ghost var fs0 := FactSet(max, blk);
      for i := 0 to |f.blocks[b].body|
        invariant Valid() && (!changed ==> max == old(max)) && forall m :: Cap(max, m) <= Cap(old(max), m)
        invariant forall j :: 0 <= j < i ==> IsIns(f, b, j) && Ruled(f, c, fs0, max, b, j)
      {
        var d := f.blocks[b].body[i];
        assert IsIns(f, b, i);
        ghost var was := max;
        if d.res >= 0 {
          var k := InsBound(d, ArgBounds(FactSet(max, blk), b, d.args), RetOf(c.ret, d));
          InsUpdate(f, c, FactSet(max, blk), b, i);
          RuleTighter(FactSet(max, blk), fs0, b, d, RetOf(c.ret, d));
          var ch := Lower(d.res, k);
          changed := changed || ch;
        }
        LowerStays(f, c, fs0, was, max);
        assert Ruled(f, c, fs0, max, b, i) by { RuledIs(f, c, fs0, max, b, i); }
      }
    }

    /** One sweep over every definition: results are bounded by their rules, and phis by their incoming
        values, on the bounds before the sweep. */
    method NarrowValues() returns (changed: bool)
      requires Valid()
      modifies this`max
      ensures Valid() && (!changed ==> max == old(max)) && forall m :: Cap(max, m) <= Cap(old(max), m)
      ensures AllRuled(f, c, FactSet(old(max), blk), max) && AllMet(f, FactSet(old(max), blk), max)
    {
      hide Sound, Ruled, Met;
      changed := false;
      var ec: EdgeCache := map[];
      ghost var fs0 := FactSet(max, blk);
      for b := 0 to |f.blocks|
        invariant Valid() && CacheOk(f, c, ec) && (!changed ==> max == old(max))
        invariant forall m :: Cap(max, m) <= Cap(old(max), m)
        invariant forall a, i :: a < b && IsIns(f, a, i) ==> Ruled(f, c, fs0, max, a, i)
        invariant forall a, j :: a < b && IsPhi(f, a, j) ==> Met(f, fs0, max, a, j)
      {
        var ch;
        ghost var was := max;
        ch, ec := SweepPhis(b, ec);
        changed := changed || ch;
        ghost var mid := max;
        ch := SweepBody(b);
        changed := changed || ch;
        SweepStays(f, c, fs0, was, mid, max, blk, b);
      }
    }

    /** Passes until nothing changes or the cap is reached: stopping early leaves looser bounds, and
        never an unsound one. */
    method Iterate(rpo: seq<int>, idom: seq<int>, preds: seq<seq<int>>)
      requires Valid() && DomTree(GraphOf(f), idom) && PredsOk(GraphOf(f), preds)
      requires Dominators.TopDown(rpo, idom) && forall i :: 0 <= i < |rpo| ==> IsBlock(f, rpo[i])
      modifies this
      ensures Valid() && forall m :: Cap(max, m) <= Cap(old(max), m)
      ensures AllRuled(f, c, FactSet(old(max), []), max) && AllMet(f, FactSet(old(max), []), max)
    {
      hide Sound, DomTree, PredsOk, AllRuled, AllMet, Dominators.TopDown, BlockCaps;
      for pass := 0 to PASSES
        invariant Valid() && forall m :: Cap(max, m) <= Cap(old(max), m)
        invariant pass > 0 ==> AllRuled(f, c, FactSet(old(max), []), max) && AllMet(f, FactSet(old(max), []), max)
      {
        var changed := NarrowEdges(rpo, idom, preds);
        ghost var was := max;
        var ch := NarrowValues();
        RuledSince(f, c, FactSet(was, blk), FactSet(old(max), []), max);
        if !changed && !ch { return; }
      }
    }
  }

  lemma {:induction false} InsUpdate(f: Func, c: Context, fs: FactSet, b: int, i: int)
    requires Ok(f) && Sound(f, c, fs) && IsIns(f, b, i) && f.blocks[b].body[i].res >= 0
    ensures var d := f.blocks[b].body[i];
            && |d.args| >= Arity(d.op)
            && forall e, t :: Proper(f, e) && Respects(f, c, e) && SoundOn(f, fs, e) && Visible(f, e, t, d.res) ==>
                                Get(e.envs[t], d.res) <= InsBound(d, ArgBounds(fs, b, d.args), RetOf(c.ret, d))
  {
    var d := f.blocks[b].body[i];
    assert DefinedBy(f, d.res) && DefOf(f, d.res) == d;
    forall e, t | Proper(f, e) && Respects(f, c, e) && SoundOn(f, fs, e) && Visible(f, e, t, d.res)
      ensures Get(e.envs[t], d.res) <= InsBound(d, ArgBounds(fs, b, d.args), RetOf(c.ret, d))
    {
      ValueSound(f, c, fs, e, t, d.res);
    }
  }

  lemma {:induction false} PhiUpdate(f: Func, c: Context, fs: FactSet, b: int, j: int, k: Word)
    requires Ok(f) && Sound(f, c, fs) && IsPhi(f, b, j)
    requires exists raw :: PhiCap(f, c, fs, b, j, raw) && Min(raw, TypeMax(f.blocks[b].phis[j].ty)) <= k
    ensures forall e, t :: Proper(f, e) && Respects(f, c, e) && SoundOn(f, fs, e)
                           && Visible(f, e, t, f.blocks[b].phis[j].res) ==>
                             Get(e.envs[t], f.blocks[b].phis[j].res) <= k
  {
    hide PhiCap;
    var n := f.blocks[b].phis[j].res;
    var raw :| PhiCap(f, c, fs, b, j, raw) && Min(raw, TypeMax(f.blocks[b].phis[j].ty)) <= k;
    assert PhiAt(f, n, j);
    forall e, t | Proper(f, e) && Respects(f, c, e) && SoundOn(f, fs, e) && Visible(f, e, t, n)
      ensures Get(e.envs[t], n) <= k
    {
      PhiSound(f, c, fs, e, t, n, j, raw);
    }
  }

  lemma {:induction false} PhiMet(f: Func, fs0: FactSet, fs: FactSet, max: Caps, b: int, j: int, k: Word)
    requires IsPhi(f, b, j) && Tighter(fs, fs0) && Cap(max, f.blocks[b].phis[j].res) <= k
    requires forall q :: Joins(fs, f.blocks[b].phis[j], q) ==> k <= Min(q, TypeMax(f.blocks[b].phis[j].ty))
    ensures Met(f, fs0, max, b, j)
  {
    hide BoundAt;
    var phi := f.blocks[b].phis[j];
    forall q | Joins(fs0, phi, q) ensures Cap(max, phi.res) <= Min(q, TypeMax(phi.ty)) {
      forall p | p in phi.args ensures BoundAt(fs, p, phi.args[p]) <= q { BoundTighter(fs, fs0, p, phi.args[p]); }
      assert Joins(fs, phi, q);
    }
  }

  lemma RuledIs(f: Func, c: Context, fs: FactSet, max: Caps, b: int, i: int)
    requires IsIns(f, b, i)
    requires var d := f.blocks[b].body[i];
             d.res >= 0 && |d.args| >= Arity(d.op) ==>
               Cap(max, d.res) <= InsBound(d, ArgBounds(fs, b, d.args), RetOf(c.ret, d))
    ensures Ruled(f, c, fs, max, b, i)
  {
  }

  /** Facts about looser bounds follow from those about tighter ones. */
  lemma {:induction false} RuledSince(f: Func, c: Context, fs: FactSet, fs0: FactSet, max: Caps)
    requires Tighter(fs, fs0) && AllRuled(f, c, fs, max) && AllMet(f, fs, max)
    ensures AllRuled(f, c, fs0, max) && AllMet(f, fs0, max)
  {
    hide BoundAt, InsBound, Tighter;
    hide Ruled, Met;
    forall b, i | IsIns(f, b, i) ensures Ruled(f, c, fs0, max, b, i) { OneSince(f, c, fs, fs0, max, b, i); }
    forall b, j | IsPhi(f, b, j) ensures Met(f, fs0, max, b, j) { MetSince(f, fs, fs0, max, b, j); }
  }

  /** After block b: its own facts, and those of the blocks before it. */
  lemma {:induction false} SweepStays(f: Func, c: Context, fs0: FactSet, was: Caps, mid: Caps, max: Caps,
                                      blk: seq<Caps>, b: int)
    requires fs0.blk == blk && (forall n :: Cap(was, n) <= Cap(fs0.max, n))
    requires (forall n :: Cap(mid, n) <= Cap(was, n)) && forall n :: Cap(max, n) <= Cap(mid, n)
    requires forall a, i :: a < b && IsIns(f, a, i) ==> Ruled(f, c, fs0, was, a, i)
    requires forall a, j :: a < b && IsPhi(f, a, j) ==> Met(f, fs0, was, a, j)
    requires forall j :: IsPhi(f, b, j) ==> Met(f, FactSet(was, blk), mid, b, j)
    requires forall i :: IsIns(f, b, i) ==> Ruled(f, c, FactSet(mid, blk), max, b, i)
    ensures forall a, i :: a < b + 1 && IsIns(f, a, i) ==> Ruled(f, c, fs0, max, a, i)
    ensures forall a, j :: a < b + 1 && IsPhi(f, a, j) ==> Met(f, fs0, max, a, j)
  {
    hide Ruled, Met;
    LowerStays(f, c, fs0, was, max);
    LowerStays(f, c, FactSet(was, blk), mid, max);
    forall i | IsIns(f, b, i) ensures Ruled(f, c, fs0, max, b, i) { OneSince(f, c, FactSet(mid, blk), fs0, max, b, i); }
    forall j | IsPhi(f, b, j) ensures Met(f, fs0, max, b, j) { MetSince(f, FactSet(was, blk), fs0, max, b, j); }
  }

  lemma {:induction false} OneSince(f: Func, c: Context, fs: FactSet, fs0: FactSet, max: Caps, b: int, i: int)
    requires IsIns(f, b, i) && Tighter(fs, fs0) && Ruled(f, c, fs, max, b, i)
    ensures Ruled(f, c, fs0, max, b, i)
  {
    hide BoundAt, InsBound, Tighter;
    var d := f.blocks[b].body[i];
    if |d.args| >= Arity(d.op) { RuleTighter(fs, fs0, b, d, RetOf(c.ret, d)); }
  }

  lemma {:induction false} MetSince(f: Func, fs: FactSet, fs0: FactSet, max: Caps, b: int, j: int)
    requires IsPhi(f, b, j) && Tighter(fs, fs0) && Met(f, fs, max, b, j)
    ensures Met(f, fs0, max, b, j)
  {
    hide BoundAt, Tighter;
    var phi := f.blocks[b].phis[j];
    forall q | Joins(fs0, phi, q) ensures Cap(max, phi.res) <= Min(q, TypeMax(phi.ty)) {
      forall p | p in phi.args ensures BoundAt(fs, p, phi.args[p]) <= q { BoundTighter(fs, fs0, p, phi.args[p]); }
      assert Joins(fs, phi, q);
    }
  }

  /** The bounds of one function, from its block graph's dominator tree and at most eight passes:
      sound for every execution the context allows. */
  method FactsOf(f: Func, c: Context) returns (fs: FactSet)
    requires Ok(f) && |c.param| == |f.params|
    ensures Sound(f, c, fs)
    ensures AllRuled(f, c, FactSet(map[], []), fs.max) && AllMet(f, FactSet(map[], []), fs.max)
    ensures Distinct(f.params) ==> forall i :: 0 <= i < |f.params| ==> Cap(fs.max, f.params[i]) <= c.param[i]
  {
    hide Sound, Dominates, AllRuled, AllMet;
    var rpo, idom, preds := Dominators.DominatorTree(GraphOf(f));
    forall i | 0 <= i < |rpo| ensures IsBlock(f, rpo[i]) { assert rpo[i] in rpo; }
    var table := new Table(f, c);
    ghost var seeds := FactSet(table.max, []);
    table.Iterate(rpo, idom, preds);
    fs := FactSet(table.max, table.blk);
    RuledSince(f, c, seeds, FactSet(map[], []), fs.max);
  }
}
