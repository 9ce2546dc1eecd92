/** Whole-program parameter and return bounds (host/dmacc/facts.go): every iterate bounds the
    arguments and the returned words of every activation of every run. */
module WholeProgram {
  import opened Words
  import opened Cfg
  import opened Bounds
  import opened Executions
  import opened Narrowing
  import opened Facts
  import Colouring

  // ----- programs and runs -----

  /** Functions by name; the entry point, the recursion sink and the loader's entries; and the
      symbols global initializers mention. */
  datatype Prog = Prog(funcs: map<int, Func>, roots: set<int>, inits: set<int>)

  ghost predicate ProgOk(p: Prog) {
    forall f :: f in p.funcs ==>
                  Ok(p.funcs[f]) && forall i :: 0 <= i < |p.funcs[f].params| ==> p.funcs[f].params[i] !in p.funcs[f].def
  }

  /** The function's address is an operand somewhere in f. */
  ghost predicate Mentions(f: Func, g: int) {
    || (exists b, i, k :: IsIns(f, b, i) && 0 <= k < |f.blocks[b].body[i].args|
          && IsSym(f.blocks[b].body[i].args[k], g))
    || (exists b, j, q :: IsPhi(f, b, j) && q in f.blocks[b].phis[j].args && IsSym(f.blocks[b].phis[j].args[q], g))
    || (exists b, v :: IsBlock(f, b) && v in TermVals(f.blocks[b].term) && IsSym(v, g))
  }

  predicate IsSym(v: Val, g: int) {
    v.Global? && v.sym == g
  }

  /** Callers the call sites do not show: a root, a symbol in an initializer, or an address used
      as a value. */
  ghost predicate Escapes(p: Prog, g: int) {
    g in p.roots || g in p.inits || exists f :: f in p.funcs && Mentions(p.funcs[f], g)
  }

  /** One activation of a function, up to wherever it has got. */
  datatype Act = Act(fn: int, exec: Exec)

  ghost predicate Running(p: Prog, a: Act) {
    a.fn in p.funcs && Proper(p.funcs[a.fn], a.exec)
  }

  /** The activation has returned w. */
  ghost predicate ReturnsWord(p: Prog, a: Act, w: Word)
    requires Running(p, a)
  {
    var f, e := p.funcs[a.fn], a.exec;
    var t := |e.path| - 1;
    var blk := f.blocks[e.path[t]];
    e.cut >= |blk.body| && blk.term.Ret? && |blk.term.vals| > 0 && Evals(e.envs[t], blk.term.vals[0], w)
  }

  /** Instruction i of visit t of a calls g by name; it has completed, or is under way. */
  ghost predicate CallsAt(p: Prog, a: Act, t: int, i: int, g: int)
    requires Running(p, a)
  {
    Visit(a.exec, t) && IsIns(p.funcs[a.fn], a.exec.path[t], i) && Completed(a.exec, t, i - 1)
        && p.funcs[a.fn].blocks[a.exec.path[t]].body[i].op == Call(g)
  }

  function SiteArgs(f: Func, b: int, i: int): seq<Val>
    requires IsIns(f, b, i)
  {
    f.blocks[b].body[i].args
  }

  /** The words of the site's arguments are what b's parameters started with. */
  ghost predicate Passes(p: Prog, a: Act, t: int, i: int, b: Act)
    requires Running(p, a) && Running(p, b) && CallsAt(p, a, t, i, b.fn)
  {
    var args := SiteArgs(p.funcs[a.fn], a.exec.path[t], i);
    forall k :: 0 <= k < |args| && k < |p.funcs[b.fn].params| ==>
                  Evals(a.exec.envs[t], args[k], Get(b.exec.envs[0], p.funcs[b.fn].params[k]))
  }

  ghost predicate Called(p: Prog, w: iset<Act>, b: Act)
    requires Running(p, b)
  {
    exists a, t, i :: a in w && Running(p, a) && CallsAt(p, a, t, i, b.fn) && Passes(p, a, t, i, b)
  }

  ghost predicate Answered(p: Prog, w: iset<Act>, g: int, v: Word) {
    exists b :: b in w && Running(p, b) && b.fn == g && ReturnsWord(p, b, v)
  }

  /** An operand written in a block. */
  ghost predicate Written(f: Func, b: int, v: Val) {
    IsBlock(f, b) &&
    ((exists i :: 0 <= i < |f.blocks[b].body| && v in f.blocks[b].body[i].args) ||
     (exists j, q :: 0 <= j < |f.blocks[b].phis| && q in f.blocks[b].phis[j].args &&
                     v == f.blocks[b].phis[j].args[q]) ||
     v in TermVals(f.blocks[b].term))
  }

  /** The address of g has been available to the run: from an initializer, or as an operand of a block
      some activation has visited. */
  ghost predicate Available(p: Prog, w: iset<Act>, g: int) {
    g in p.inits ||
    exists a, t, v :: a in w && Running(p, a) && Visit(a.exec, t) && Written(p.funcs[a.fn], a.exec.path[t], v)
                      && v.Global? && v.sym == g
  }

  /** A run, finished or not, as the set of its activations: named calls get the words their
      callees returned, and an activation was entered by a named call, as a root, or through an
      address that was available. */
  ghost predicate RunOk(p: Prog, w: iset<Act>) {
    && (forall a :: a in w ==> Running(p, a))
    && (forall a, t, i, g :: a in w && CallsAt(p, a, t, i, g) && Completed(a.exec, t, i) && g in p.funcs
                             && p.funcs[a.fn].blocks[a.exec.path[t]].body[i].res >= 0 ==>
          Answered(p, w, g, Get(a.exec.envs[t], p.funcs[a.fn].blocks[a.exec.path[t]].body[i].res)))
    && (forall b :: b in w ==> Called(p, w, b) || b.fn in p.roots || Available(p, w, b.fn))
  }

  /** So a function that does not escape is entered by named calls only. */
  lemma {:induction false} EnteredByName(p: Prog, w: iset<Act>, b: Act)
    requires RunOk(p, w) && b in w && !Escapes(p, b.fn)
    ensures Called(p, w, b)
  {
    hide Called;
    if Available(p, w, b.fn) && b.fn !in p.inits {
      var a, t, v :| a in w && Running(p, a) && Visit(a.exec, t) && Written(p.funcs[a.fn], a.exec.path[t], v)
                     && v.Global? && v.sym == b.fn;
      WrittenMentions(p.funcs[a.fn], a.exec.path[t], v, b.fn);
    }
  }

  lemma {:induction false} WrittenMentions(f: Func, b: int, v: Val, g: int)
    requires Written(f, b, v) && v.Global? && v.sym == g
    ensures Mentions(f, g)
  {
    if i :| 0 <= i < |f.blocks[b].body| && v in f.blocks[b].body[i].args {
      assert IsIns(f, b, i);
      var k :| 0 <= k < |f.blocks[b].body[i].args| && f.blocks[b].body[i].args[k] == v;
      assert IsSym(f.blocks[b].body[i].args[k], g);
    } else if j, q :| 0 <= j < |f.blocks[b].phis| && q in f.blocks[b].phis[j].args &&
                      v == f.blocks[b].phis[j].args[q] {
      assert IsPhi(f, b, j) && IsSym(f.blocks[b].phis[j].args[q], g);
    } else {
      assert v in TermVals(f.blocks[b].term) && IsSym(v, g);
    }
  }

  // ----- soundness -----

  /** Bounds on every parameter and on every returned word. */
  datatype Ip = Ip(param: map<int, seq<Word>>, ret: Caps)

  predicate Shaped(p: Prog, ip: Ip) {
    ip.param.Keys == p.funcs.Keys && ip.ret.Keys == p.funcs.Keys
        && forall f :: f in p.funcs ==> |ip.param[f]| == |p.funcs[f].params|
  }

  ghost predicate ActBounded(p: Prog, ip: Ip, a: Act)
    requires Shaped(p, ip) && Running(p, a)
  {
    && (forall k :: 0 <= k < |p.funcs[a.fn].params| ==>
                      Get(a.exec.envs[0], p.funcs[a.fn].params[k]) <= ip.param[a.fn][k])
    && forall w :: ReturnsWord(p, a, w) ==> w <= ip.ret[a.fn]
  }

  /** Sound for every activation of every run. */
  ghost predicate IpSound(p: Prog, ip: Ip) {
    Shaped(p, ip) && forall w, a: Act :: RunOk(p, w) && a in w ==> ActBounded(p, ip, a)
  }

  /** A function's facts hold in every activation of every run. */
  ghost predicate FactsHold(p: Prog, f: int, fs: FactSet) {
    f in p.funcs && |fs.blk| == |p.funcs[f].blocks|
        && forall w, a: Act :: RunOk(p, w) && a in w && a.fn == f ==> SoundOn(p.funcs[f], fs, a.exec)
  }

  function ContextOf(ip: Ip, f: int): Context
    requires f in ip.param
  {
    Context(ip.param[f], ip.ret)
  }

  /** The last time a call's result was set. */
  lemma {:induction false} CallOf(p: Prog, w: iset<Act>, a: Act, t: int, n: int) returns (s: int, i: int)
    requires ProgOk(p) && RunOk(p, w) && a in w && Visible(p.funcs[a.fn], a.exec, t, n)
    requires DefinedBy(p.funcs[a.fn], n) && DefOf(p.funcs[a.fn], n).op.Call?
    ensures CallsAt(p, a, s, i, DefOf(p.funcs[a.fn], n).op.callee) && Completed(a.exec, s, i)
    ensures p.funcs[a.fn].blocks[a.exec.path[s]].body[i].res == n && Get(a.exec.envs[t], n) == Get(a.exec.envs[s], n)
  {
    var f, e := p.funcs[a.fn], a.exec;
    assert Running(p, a);
    hide RunOk, AllFit, Typed, ArgsOk, Dominated;
    i := f.def[n].i;
    s := LastVisit(f, e, t, f.def[n].b);
    Unchanged(f, e, s, t, n);
    assert Completed(e, s, i);
  }

  lemma {:induction false} CallBounded(p: Prog, ip: Ip, w: iset<Act>, a: Act, t: int, n: int)
    requires ProgOk(p) && IpSound(p, ip) && RunOk(p, w) && a in w && Visible(p.funcs[a.fn], a.exec, t, n)
    requires DefinedBy(p.funcs[a.fn], n)
    ensures Get(a.exec.envs[t], n) <= RetOf(ip.ret, DefOf(p.funcs[a.fn], n))
  {
    var d := DefOf(p.funcs[a.fn], n);
    if d.op.Call? && d.op.callee in p.funcs {
      assert n >= 0;
      hide Ok, ExecOk, Visible, AllFit, RunOk, DefinedBy, IpSound, DefOf, CallsAt;
      var s, i := CallOf(p, w, a, t, n);
      AnswerBounded(p, ip, w, a, s, i, d.op.callee);
    }
  }

  lemma {:induction false} AnswerBounded(p: Prog, ip: Ip, w: iset<Act>, a: Act, s: int, i: int, g: int)
    requires IpSound(p, ip) && RunOk(p, w) && a in w && g in p.funcs
    requires CallsAt(p, a, s, i, g) && Completed(a.exec, s, i)
    requires p.funcs[a.fn].blocks[a.exec.path[s]].body[i].res >= 0
    ensures Get(a.exec.envs[s], p.funcs[a.fn].blocks[a.exec.path[s]].body[i].res) <= Cap(ip.ret, g)
  {
    hide ExecOk, AllFit;
    var v := Get(a.exec.envs[s], p.funcs[a.fn].blocks[a.exec.path[s]].body[i].res);
    assert Answered(p, w, g, v);
    var b :| b in w && Running(p, b) && b.fn == g && ReturnsWord(p, b, v);
    assert ActBounded(p, ip, b);
  }

  /** An activation of a sound program keeps to the context its facts were derived under. */
  lemma {:induction false} ActRespects(p: Prog, ip: Ip, w: iset<Act>, a: Act)
    requires ProgOk(p) && IpSound(p, ip) && RunOk(p, w) && a in w
    ensures Respects(p.funcs[a.fn], ContextOf(ip, a.fn), a.exec)
  {
    var f, e := p.funcs[a.fn], a.exec;
    forall t, n | Visible(f, e, t, n) && DefinedBy(f, n)
      ensures Get(e.envs[t], n) <= RetOf(ip.ret, DefOf(f, n))
    {
      CallBounded(p, ip, w, a, t, n);
    }
    forall t, i | Visit(e, t) && 0 <= i < |f.params| && i < |ip.param[a.fn]|
      ensures Get(e.envs[t], f.params[i]) <= ip.param[a.fn][i]
    {
      Unchanged(f, e, 0, t, f.params[i]);
      assert ActBounded(p, ip, a);
    }
  }

  lemma {:induction false} SoundHolds(p: Prog, ip: Ip, f: int, fs: FactSet)
    requires ProgOk(p) && IpSound(p, ip) && f in p.funcs && Sound(p.funcs[f], ContextOf(ip, f), fs)
    ensures FactsHold(p, f, fs)
  {
    forall w, a: Act | RunOk(p, w) && a in w && a.fn == f
      ensures SoundOn(p.funcs[f], fs, a.exec)
    {
      ActRespects(p, ip, w, a);
    }
  }

  // ----- candidates -----

  /** Maxima over the sites seen so far: arguments per callee, callees with a site that passes too
      few, and returned values. */
  datatype Scan = Scan(cand: map<int, seq<Word>>, partial: set<int>, rcand: Caps)

  type FactMap = map<int, FactSet>

  /** A call site has been counted. */
  ghost predicate SiteCovered(p: Prog, facts: FactMap, sc: Scan, fn: int, b: int, i: int)
    requires fn in p.funcs && fn in facts && IsIns(p.funcs[fn], b, i)
  {
    var ins := p.funcs[fn].blocks[b].body[i];
    ins.op.Call? && ins.op.callee in p.funcs && |p.funcs[ins.op.callee].params| > 0 ==>
      var g, n := ins.op.callee, |p.funcs[ins.op.callee].params|;
      if |ins.args| < n then g in sc.partial
      else
        && g in sc.cand && |sc.cand[g]| == n
        && forall k :: 0 <= k < n ==> BoundAt(facts[fn], b, ins.args[k]) <= sc.cand[g][k]
  }

  /** A return has been counted. */
  ghost predicate RetCovered(p: Prog, facts: FactMap, sc: Scan, fn: int, b: int)
    requires fn in p.funcs && fn in facts && IsBlock(p.funcs[fn], b)
  {
    var term := p.funcs[fn].blocks[b].term;
    term.Ret? && |term.vals| > 0 ==> fn in sc.rcand && BoundAt(facts[fn], b, term.vals[0]) <= sc.rcand[fn]
  }

  ghost predicate BlockCovered(p: Prog, facts: FactMap, sc: Scan, fn: int, b: int)
    requires fn in p.funcs && fn in facts
  {
    IsBlock(p.funcs[fn], b) ==>
        RetCovered(p, facts, sc, fn, b) && forall i :: IsIns(p.funcs[fn], b, i) ==> SiteCovered(p, facts, sc, fn, b, i)
  }

  ghost predicate Grows(sc: Scan, sc': Scan) {
    && (forall g :: g in sc.cand ==>
                      g in sc'.cand && |sc'.cand[g]| == |sc.cand[g]|
                      && forall k :: 0 <= k < |sc.cand[g]| ==> sc.cand[g][k] <= sc'.cand[g][k])
    && sc.partial <= sc'.partial && forall f :: f in sc.rcand ==> f in sc'.rcand && sc.rcand[f] <= sc'.rcand[f]
  }

  predicate ScanOk(p: Prog, sc: Scan) {
    forall g :: g in sc.cand ==> g in p.funcs && |sc.cand[g]| == |p.funcs[g].params|
  }

  lemma {:induction false} GrowsTrans(a: Scan, b: Scan, c: Scan)
    requires Grows(a, b) && Grows(b, c)
    ensures Grows(a, c)
  {
  }

  lemma {:induction false} CoveredStays(p: Prog, facts: FactMap, sc: Scan, sc': Scan, fn: int, b: int)
    requires fn in p.funcs && fn in facts && BlockCovered(p, facts, sc, fn, b) && Grows(sc, sc')
    ensures BlockCovered(p, facts, sc', fn, b)
  {
    if IsBlock(p.funcs[fn], b) {
      forall i | IsIns(p.funcs[fn], b, i) ensures SiteCovered(p, facts, sc', fn, b, i) {
        assert SiteCovered(p, facts, sc, fn, b, i);
      }
    }
  }

  // ----- candidates are no looser than the sites -----

  /** Instruction i of block b of fn calls g by name. */
  predicate Site(p: Prog, fn: int, b: int, i: int, g: int) {
    fn in p.funcs && g in p.funcs && IsIns(p.funcs[fn], b, i) && p.funcs[fn].blocks[b].body[i].op == Call(g)
  }

  /** The site passes every parameter. */
  predicate FullSite(p: Prog, fn: int, b: int, i: int, g: int) {
    Site(p, fn, b, i, g) && |SiteArgs(p.funcs[fn], b, i)| >= |p.funcs[g].params|
  }

  ghost predicate HasFull(p: Prog, g: int) {
    exists fn, b, i :: FullSite(p, fn, b, i, g)
  }

  ghost predicate HasShort(p: Prog, g: int) {
    exists fn, b, i :: Site(p, fn, b, i, g) && !FullSite(p, fn, b, i, g)
  }

  /** No site's k-th argument is bounded by more than m. */
  ghost predicate ArgsUnder(p: Prog, facts: FactMap, g: int, k: int, m: Word) {
    g in p.funcs && 0 <= k < |p.funcs[g].params|
    && forall fn, b, i :: FullSite(p, fn, b, i, g) ==>
                            fn in facts && BoundAt(facts[fn], b, SiteArgs(p.funcs[fn], b, i)[k]) <= m
  }

  /** Block b of f returns a word. */
  predicate ReturnsAt(p: Prog, f: int, b: int) {
    f in p.funcs && IsBlock(p.funcs[f], b) && var term := p.funcs[f].blocks[b].term; term.Ret? && |term.vals| > 0
  }

  ghost predicate HasReturn(p: Prog, f: int) {
    exists b :: ReturnsAt(p, f, b)
  }

  ghost predicate RetsUnder(p: Prog, facts: FactMap, f: int, m: Word) {
    f in facts && forall b :: ReturnsAt(p, f, b) ==> BoundAt(facts[f], b, p.funcs[f].blocks[b].term.vals[0]) <= m
  }

  /** No candidate is above a bound all sites share, and only a short site spoils one. */
  ghost predicate Tight(p: Prog, facts: FactMap, sc: Scan) {
    && (forall g, k, m :: g in sc.cand && 0 <= k < |sc.cand[g]| && ArgsUnder(p, facts, g, k, m) ==> sc.cand[g][k] <= m)
    && (forall g :: g in sc.partial ==> HasShort(p, g))
    && forall f, m :: f in sc.rcand && RetsUnder(p, facts, f, m) ==> sc.rcand[f] <= m
  }

  lemma {:induction false} ScanInsTight(p: Prog, facts: FactMap, sc: Scan, fn: int, b: int, i: int)
    requires fn in p.funcs && fn in facts && ScanOk(p, sc) && IsIns(p.funcs[fn], b, i) && Tight(p, facts, sc)
    ensures Tight(p, facts, ScanIns(p, facts, sc, fn, b, p.funcs[fn].blocks[b].body[i]))
  {
    hide BoundAt, RetsUnder;
    var ins := p.funcs[fn].blocks[b].body[i];
    var sc' := ScanIns(p, facts, sc, fn, b, ins);
    if ins.op.Call? && ins.op.callee in p.funcs && |p.funcs[ins.op.callee].params| > 0 {
      var g := ins.op.callee;
      assert Site(p, fn, b, i, g);
      if |ins.args| < |p.funcs[g].params| {
        assert !FullSite(p, fn, b, i, g);
        assert HasShort(p, g);
      } else {
        assert FullSite(p, fn, b, i, g);
      }
    }
  }

  /** Raises each candidate to the site's bound. */
  function Raise(cs: seq<Word>, fs: FactSet, b: int, args: seq<Val>): (r: seq<Word>)
    requires |args| >= |cs|
    ensures |r| == |cs| && forall k :: 0 <= k < |cs| ==> r[k] == Max(cs[k], BoundAt(fs, b, args[k]))
  {
    seq(|cs|, k requires 0 <= k < |cs| => Max(cs[k], BoundAt(fs, b, args[k])))
  }

  /** Counts one instruction. */
  function ScanIns(p: Prog, facts: FactMap, sc: Scan, fn: int, b: int, ins: Ins): Scan
    requires fn in facts && ScanOk(p, sc)
  {
    if !ins.op.Call? || ins.op.callee !in p.funcs || |p.funcs[ins.op.callee].params| == 0 then sc
    else
      var g := ins.op.callee;
      var n := |p.funcs[g].params|;
      if |ins.args| < n then sc.(partial := sc.partial + {g})
      else
        var cs := if g in sc.cand then sc.cand[g] else seq(n, _ => 0);
        sc.(cand := sc.cand[g := Raise(cs, facts[fn], b, ins.args)])
  }

  lemma {:induction false} ScanInsCovers(p: Prog, facts: FactMap, sc: Scan, fn: int, b: int, i: int)
    requires fn in p.funcs && fn in facts && ScanOk(p, sc) && IsIns(p.funcs[fn], b, i)
    ensures var sc' := ScanIns(p, facts, sc, fn, b, p.funcs[fn].blocks[b].body[i]);
            ScanOk(p, sc') && Grows(sc, sc') && SiteCovered(p, facts, sc', fn, b, i)
  {
  }

  lemma {:induction false} RetTight(p: Prog, facts: FactMap, sc: Scan, fn: int, b: int)
    requires fn in facts && ReturnsAt(p, fn, b) && Tight(p, facts, sc)
    ensures var w := BoundAt(facts[fn], b, p.funcs[fn].blocks[b].term.vals[0]);
            Tight(p, facts, sc.(rcand := sc.rcand[fn := if fn in sc.rcand then Max(sc.rcand[fn], w) else w]))
  {
    hide BoundAt, ArgsUnder, HasShort;
  }

  /** Counts one block's calls and its return. */
  method ScanBlock(p: Prog, facts: FactMap, sc: Scan, fn: int, b: int) returns (sc': Scan)
    requires fn in p.funcs && fn in facts && ScanOk(p, sc) && IsBlock(p.funcs[fn], b) && Tight(p, facts, sc)
    ensures ScanOk(p, sc') && Grows(sc, sc') && BlockCovered(p, facts, sc', fn, b) && Tight(p, facts, sc')
  {
    hide BoundAt, ArgsUnder, RetsUnder, HasShort;
    sc' := sc;
    var blk := p.funcs[fn].blocks[b];
    for i := 0 to |blk.body|
      invariant ScanOk(p, sc') && Grows(sc, sc') && Tight(p, facts, sc')
      invariant forall k :: 0 <= k < i ==> SiteCovered(p, facts, sc', fn, b, k)
    {
      hide SiteCovered, Grows, Tight;
      ScanInsCovers(p, facts, sc', fn, b, i);
      ScanInsTight(p, facts, sc', fn, b, i);
      ghost var was := sc';
      sc' := ScanIns(p, facts, sc', fn, b, blk.body[i]);
      GrowsTrans(sc, was, sc');
      forall k | 0 <= k < i ensures SiteCovered(p, facts, sc', fn, b, k) { SiteStays(p, facts, was, sc', fn, b, k); }
    }
    if blk.term.Ret? && |blk.term.vals| > 0 {
      var w := BoundAt(facts[fn], b, blk.term.vals[0]);
      ghost var was := sc';
      sc' := sc'.(rcand := sc'.rcand[fn := if fn in sc'.rcand then Max(sc'.rcand[fn], w) else w]);
      RetTight(p, facts, was, fn, b);
      forall k | 0 <= k < |blk.body|
        ensures SiteCovered(p, facts, sc', fn, b, k)
      {
        SiteStays(p, facts, was, sc', fn, b, k);
      }
    }
  }

  lemma {:induction false} SiteStays(p: Prog, facts: FactMap, sc: Scan, sc': Scan, fn: int, b: int, i: int)
    requires fn in p.funcs && fn in facts && IsIns(p.funcs[fn], b, i) && SiteCovered(p, facts, sc, fn, b, i)
    requires Grows(sc, sc')
    ensures SiteCovered(p, facts, sc', fn, b, i)
  {
  }

  ghost predicate FuncCovered(p: Prog, facts: FactMap, sc: Scan, fn: int)
    requires fn in p.funcs && fn in facts
  {
    forall b :: BlockCovered(p, facts, sc, fn, b)
  }

  method ScanFunc(p: Prog, facts: FactMap, sc: Scan, fn: int) returns (sc': Scan)
    requires fn in p.funcs && fn in facts && ScanOk(p, sc) && Tight(p, facts, sc)
    ensures ScanOk(p, sc') && Grows(sc, sc') && FuncCovered(p, facts, sc', fn) && Tight(p, facts, sc')
  {
    sc' := sc;
    for b := 0 to |p.funcs[fn].blocks|
      invariant ScanOk(p, sc') && Grows(sc, sc') && Tight(p, facts, sc')
      invariant forall c :: 0 <= c < b ==> BlockCovered(p, facts, sc', fn, c)
    {
      hide BlockCovered, Grows, ScanOk, Tight;
      ghost var was := sc';
      sc' := ScanBlock(p, facts, sc', fn, b);
      GrowsTrans(sc, was, sc');
      forall c | 0 <= c < b ensures BlockCovered(p, facts, sc', fn, c) { CoveredStays(p, facts, was, sc', fn, c); }
    }
    forall c ensures BlockCovered(p, facts, sc', fn, c) { if !IsBlock(p.funcs[fn], c) { } }
  }

  /** Counts the whole program. */
  method ScanAll(p: Prog, facts: FactMap, names: seq<int>) returns (sc: Scan)
    requires forall f :: f in names ==> f in p.funcs && f in facts
    ensures ScanOk(p, sc) && Tight(p, facts, sc) && forall f :: f in names ==> FuncCovered(p, facts, sc, f)
  {
    sc := Scan(map[], {}, map[]);
    for i := 0 to |names|
      invariant ScanOk(p, sc) && Tight(p, facts, sc)
      invariant forall k :: 0 <= k < i ==> names[k] in names && FuncCovered(p, facts, sc, names[k])
    {
      hide Grows, BlockCovered, ScanOk, Tight;
      ghost var was := sc;
      assert names[i] in names;
      sc := ScanFunc(p, facts, sc, names[i]);
      forall k | 0 <= k < i ensures FuncCovered(p, facts, sc, names[k]) {
        forall b ensures BlockCovered(p, facts, sc, names[k], b) { CoveredStays(p, facts, was, sc, names[k], b); }
      }
    }
  }

  // ----- committing the candidates -----

  function MinAll(a: seq<Word>, b: seq<Word>): (r: seq<Word>)
    requires |a| == |b|
    ensures |r| == |a| && forall k :: 0 <= k < |a| ==> r[k] == Min(a[k], b[k])
  {
    seq(|a|, k requires 0 <= k < |a| => Min(a[k], b[k]))
  }

  /** Only a callee whose every caller was counted takes its candidates. */
  predicate Commits(sc: Scan, esc: set<int>, g: int) {
    g !in esc && g !in sc.partial && g in sc.cand
  }

  function Commit(p: Prog, ip: Ip, sc: Scan, esc: set<int>): (r: Ip)
    requires Shaped(p, ip) && ScanOk(p, sc)
    ensures Shaped(p, r)
  {
    Ip(map f | f in ip.param :: if Commits(sc, esc, f) then MinAll(ip.param[f], sc.cand[f]) else ip.param[f],
       map f | f in ip.ret :: if f in sc.rcand then Min(ip.ret[f], sc.rcand[f]) else ip.ret[f])
  }

  ghost predicate AllCovered(p: Prog, facts: FactMap, sc: Scan) {
    facts.Keys == p.funcs.Keys && forall f :: f in p.funcs ==> FuncCovered(p, facts, sc, f)
  }

  /** Bounds no looser than what the sites and the returns share under the facts. */
  ghost predicate Tightened(p: Prog, facts: FactMap, ip: Ip)
    requires Shaped(p, ip)
  {
    && (forall g, k, m :: !Escapes(p, g) && !HasShort(p, g) && HasFull(p, g) && ArgsUnder(p, facts, g, k, m) ==>
                            ip.param[g][k] <= m)
    && forall f, m :: f in p.funcs && HasReturn(p, f) && RetsUnder(p, facts, f, m) ==> ip.ret[f] <= m
  }

  lemma {:induction false} CommitTight(p: Prog, ip: Ip, facts: FactMap, sc: Scan, esc: set<int>)
    requires Shaped(p, ip) && ScanOk(p, sc) && AllCovered(p, facts, sc) && Tight(p, facts, sc)
    requires forall g :: g in esc <==> Escapes(p, g)
    ensures Tightened(p, facts, Commit(p, ip, sc, esc))
  {
    hide BoundAt, Escapes;
    var ip' := Commit(p, ip, sc, esc);
    forall g, k, m | !Escapes(p, g) && !HasShort(p, g) && HasFull(p, g) && ArgsUnder(p, facts, g, k, m)
      ensures ip'.param[g][k] <= m
    {
      var fn, b, i :| FullSite(p, fn, b, i, g);
      assert FuncCovered(p, facts, sc, fn) && BlockCovered(p, facts, sc, fn, b) && SiteCovered(p, facts, sc, fn, b, i);
      hide ArgsUnder, HasShort;
      assert Commits(sc, esc, g);
    }
    forall f, m | f in p.funcs && HasReturn(p, f) && RetsUnder(p, facts, f, m)
      ensures ip'.ret[f] <= m
    {
      var b :| ReturnsAt(p, f, b);
      assert FuncCovered(p, facts, sc, f) && BlockCovered(p, facts, sc, f, b);
      hide RetsUnder;
      assert f in sc.rcand;
    }
  }

  ghost predicate AllHold(p: Prog, facts: FactMap) {
    forall f :: f in facts ==> FactsHold(p, f, facts[f])
  }

  /** An argument at a site under way is within the bound its block gives it. */
  lemma {:induction false} ArgBounded(p: Prog, facts: FactMap, w: iset<Act>, a: Act, t: int, i: int, g: int, k: int,
                                      v: Word)
    requires ProgOk(p) && RunOk(p, w) && a in w && CallsAt(p, a, t, i, g) && a.fn in facts
    requires FactsHold(p, a.fn, facts[a.fn])
    requires 0 <= k < |SiteArgs(p.funcs[a.fn], a.exec.path[t], i)|
    requires Evals(a.exec.envs[t], SiteArgs(p.funcs[a.fn], a.exec.path[t], i)[k], v)
    ensures v <= BoundAt(facts[a.fn], a.exec.path[t], SiteArgs(p.funcs[a.fn], a.exec.path[t], i)[k])
  {
    var f, e := p.funcs[a.fn], a.exec;
    var x := SiteArgs(f, e.path[t], i)[k];
    assert SoundOn(f, facts[a.fn], e);
    assert ValOk(f, x, e.path[t], i);
    BoundSound(f, facts[a.fn], e, t, x, v);
  }

  /** A function that does not escape has a caller in the run. */
  lemma {:induction false} CallerOf(p: Prog, w: iset<Act>, b: Act) returns (a: Act, t: int, i: int)
    requires RunOk(p, w) && b in w && !Escapes(p, b.fn)
    ensures a in w && Running(p, a) && CallsAt(p, a, t, i, b.fn) && Passes(p, a, t, i, b)
  {
    EnteredByName(p, w, b);
    hide Escapes, CallsAt, Passes, Running;
    assert Called(p, w, b);
    a, t, i :| a in w && Running(p, a) && CallsAt(p, a, t, i, b.fn) && Passes(p, a, t, i, b);
  }

  lemma {:induction false} ParamAt(p: Prog, facts: FactMap, sc: Scan, w: iset<Act>, b: Act, k: int, a: Act, t: int,
                                   i: int)
    requires ProgOk(p) && AllHold(p, facts) && AllCovered(p, facts, sc) && RunOk(p, w) && b in w && b.fn !in sc.partial
    requires 0 <= k < |p.funcs[b.fn].params|
    requires a in w && CallsAt(p, a, t, i, b.fn) && Passes(p, a, t, i, b)
    ensures b.fn in sc.cand && |sc.cand[b.fn]| == |p.funcs[b.fn].params|
    ensures Get(b.exec.envs[0], p.funcs[b.fn].params[k]) <= sc.cand[b.fn][k]
  {
    assert |b.exec.envs| > 0;
    hide FactsHold, BoundAt, ExecOk, RetCovered;
    var c := a.exec.path[t];
    assert a.fn in p.funcs && IsIns(p.funcs[a.fn], c, i);
    assert BlockCovered(p, facts, sc, a.fn, c);
    assert SiteCovered(p, facts, sc, a.fn, c, i);
    var v := Get(b.exec.envs[0], p.funcs[b.fn].params[k]);
    assert Evals(a.exec.envs[t], SiteArgs(p.funcs[a.fn], c, i)[k], v);
    ArgBounded(p, facts, w, a, t, i, b.fn, k, v);
  }

  lemma {:induction false} ParamBounded(p: Prog, facts: FactMap, sc: Scan, w: iset<Act>, b: Act, k: int)
    requires ProgOk(p) && AllHold(p, facts) && AllCovered(p, facts, sc) && RunOk(p, w) && b in w
    requires !Escapes(p, b.fn) && b.fn !in sc.partial && 0 <= k < |p.funcs[b.fn].params|
    ensures b.fn in sc.cand && |sc.cand[b.fn]| == |p.funcs[b.fn].params|
    ensures Get(b.exec.envs[0], p.funcs[b.fn].params[k]) <= sc.cand[b.fn][k]
  {
    hide AllHold, AllCovered, Escapes, CallsAt, Passes;
    var a, t, i := CallerOf(p, w, b);
    ParamAt(p, facts, sc, w, b, k, a, t, i);
  }

  lemma {:induction false} ReturnBounded(p: Prog, facts: FactMap, sc: Scan, w: iset<Act>, a: Act, v: Word)
    requires ProgOk(p) && AllHold(p, facts) && AllCovered(p, facts, sc) && RunOk(p, w) && a in w && ReturnsWord(p, a, v)
    ensures a.fn in sc.rcand && v <= sc.rcand[a.fn]
  {
    var f, e := p.funcs[a.fn], a.exec;
    var t := |e.path| - 1;
    var b := e.path[t];
    var x := f.blocks[b].term.vals[0];
    assert FactsHold(p, a.fn, facts[a.fn]);
    assert SoundOn(f, facts[a.fn], e);
    assert x in TermVals(f.blocks[b].term);
    assert ValOk(f, x, b, |f.blocks[b].body|);
    BoundSound(f, facts[a.fn], e, t, x, v);
    assert BlockCovered(p, facts, sc, a.fn, b);
  }

  lemma {:induction false} CommitParam(p: Prog, ip: Ip, facts: FactMap, sc: Scan, esc: set<int>, w: iset<Act>, a: Act,
                                       k: int)
    requires ProgOk(p) && Shaped(p, ip) && AllHold(p, facts) && AllCovered(p, facts, sc) && ScanOk(p, sc)
    requires (forall g :: g in p.funcs && Escapes(p, g) ==> g in esc) && RunOk(p, w) && a in w && ActBounded(p, ip, a)
    requires 0 <= k < |p.funcs[a.fn].params|
    ensures Get(a.exec.envs[0], p.funcs[a.fn].params[k]) <= Commit(p, ip, sc, esc).param[a.fn][k]
  {
    hide AllCovered, AllHold, Escapes, ProgOk, ExecOk;
    if Commits(sc, esc, a.fn) { ParamBounded(p, facts, sc, w, a, k); }
  }

  lemma {:induction false} CommitReturn(p: Prog, ip: Ip, facts: FactMap, sc: Scan, esc: set<int>, w: iset<Act>, a: Act,
                                        v: Word)
    requires ProgOk(p) && Shaped(p, ip) && AllHold(p, facts) && AllCovered(p, facts, sc) && ScanOk(p, sc)
    requires RunOk(p, w) && a in w && ActBounded(p, ip, a) && ReturnsWord(p, a, v)
    ensures v <= Commit(p, ip, sc, esc).ret[a.fn]
  {
    hide AllCovered, AllHold, Escapes, ReturnsWord, ProgOk;
    ReturnBounded(p, facts, sc, w, a, v);
  }

  lemma {:induction false} CommitAct(p: Prog, ip: Ip, facts: FactMap, sc: Scan, esc: set<int>, w: iset<Act>, a: Act)
    requires ProgOk(p) && IpSound(p, ip) && AllHold(p, facts) && AllCovered(p, facts, sc) && ScanOk(p, sc)
    requires (forall g :: g in p.funcs && Escapes(p, g) ==> g in esc) && RunOk(p, w) && a in w
    ensures ActBounded(p, Commit(p, ip, sc, esc), a)
  {
    hide ProgOk, AllCovered, AllHold, Escapes, ReturnsWord, Commit;
    assert ActBounded(p, ip, a) && Shaped(p, ip) && |a.exec.envs| > 0;
    hide RunOk, IpSound, ExecOk;
    var ip' := Commit(p, ip, sc, esc);
    forall k | 0 <= k < |p.funcs[a.fn].params|
      ensures Get(a.exec.envs[0], p.funcs[a.fn].params[k]) <= ip'.param[a.fn][k]
    {
      CommitParam(p, ip, facts, sc, esc, w, a, k);
    }
    forall v | ReturnsWord(p, a, v) ensures v <= ip'.ret[a.fn] { CommitReturn(p, ip, facts, sc, esc, w, a, v); }
  }

  /** Sound facts give sound candidates, and sound candidates tighten a sound bound to a sound one,
      recursion included. */
  lemma {:induction false} CommitSound(p: Prog, ip: Ip, facts: FactMap, sc: Scan, esc: set<int>)
    requires ProgOk(p) && IpSound(p, ip) && AllHold(p, facts) && AllCovered(p, facts, sc) && ScanOk(p, sc)
    requires forall g :: g in p.funcs && Escapes(p, g) ==> g in esc
    ensures IpSound(p, Commit(p, ip, sc, esc))
  {
    hide FactsHold, AllCovered, AllHold, Escapes, Running, ActBounded;
    forall w, a: Act | RunOk(p, w) && a in w
      ensures ActBounded(p, Commit(p, ip, sc, esc), a)
    {
      CommitAct(p, ip, facts, sc, esc, w, a);
    }
  }

  // ----- escapes -----

  /** The symbols a block's operands name. */
  function BlockSyms(blk: Block): set<int> {
    (set i, k | 0 <= i < |blk.body| && 0 <= k < |blk.body[i].args|
        && blk.body[i].args[k].Global? :: blk.body[i].args[k].sym)
    + (set j, q | 0 <= j < |blk.phis| && q in blk.phis[j].args
        && blk.phis[j].args[q].Global? :: blk.phis[j].args[q].sym)
    + set v | v in TermVals(blk.term) && v.Global? :: v.sym
  }

  lemma {:induction false} SymsMention(f: Func, g: int)
    ensures Mentions(f, g) <==> exists b :: IsBlock(f, b) && g in BlockSyms(f.blocks[b])
  {
    if Mentions(f, g) {
      if b, i, k :| IsIns(f, b, i) && 0 <= k < |f.blocks[b].body[i].args| && IsSym(f.blocks[b].body[i].args[k], g) {
        assert g in BlockSyms(f.blocks[b]);
      } else if b, j, q :| IsPhi(f, b, j) && q in f.blocks[b].phis[j].args && IsSym(f.blocks[b].phis[j].args[q], g) {
        assert g in BlockSyms(f.blocks[b]);
      } else {
        var b, v :| IsBlock(f, b) && v in TermVals(f.blocks[b].term) && IsSym(v, g);
        assert g in BlockSyms(f.blocks[b]);
      }
    } else {
      forall b | IsBlock(f, b) ensures g !in BlockSyms(f.blocks[b]) { NotMentioned(f, g, b); }
    }
  }

  lemma {:induction false} NotMentioned(f: Func, g: int, b: int)
    requires !Mentions(f, g) && IsBlock(f, b)
    ensures g !in BlockSyms(f.blocks[b])
  {
    var blk := f.blocks[b];
    forall i, k | 0 <= i < |blk.body| && 0 <= k < |blk.body[i].args|
      ensures !IsSym(blk.body[i].args[k], g)
    {
      assert IsIns(f, b, i);
    }
    forall j, q | 0 <= j < |blk.phis| && q in blk.phis[j].args
      ensures !IsSym(blk.phis[j].args[q], g)
    {
      assert IsPhi(f, b, j);
    }
    forall v | v in TermVals(blk.term) ensures !IsSym(v, g) { }
  }

  /** Every function, by name. */
  ghost predicate Lists(p: Prog, names: seq<int>) {
    (forall x :: 0 <= x < |names| ==> names[x] in p.funcs) && forall f :: f in p.funcs ==> f in names
  }

  lemma {:induction false} EscapesIs(p: Prog, names: seq<int>, g: int)
    requires Lists(p, names)
    ensures Escapes(p, g) <==>
              g in p.roots || g in p.inits
              || exists y :: 0 <= y < |names| && names[y] in p.funcs && Mentions(p.funcs[names[y]], g)
  {
    hide Mentions;
    if exists f :: f in p.funcs && Mentions(p.funcs[f], g) {
      var f :| f in p.funcs && Mentions(p.funcs[f], g);
      assert f in names;
      var y :| 0 <= y < |names| && names[y] == f;
      assert names[y] in p.funcs && Mentions(p.funcs[names[y]], g);
    }
    if exists y :: 0 <= y < |names| && names[y] in p.funcs && Mentions(p.funcs[names[y]], g) {
      var y :| 0 <= y < |names| && names[y] in p.funcs && Mentions(p.funcs[names[y]], g);
      var f := names[y];
      assert f in p.funcs && Mentions(p.funcs[f], g);
    }
  }

  /** The functions whose parameters must stay unbounded. */
  method EscapedFuncs(p: Prog, names: seq<int>) returns (esc: set<int>)
    requires Lists(p, names)
    ensures forall g :: g in esc <==> Escapes(p, g)
  {
    hide Mentions;
    esc := p.roots + p.inits;
    for x := 0 to |names|
      invariant forall g :: g in esc <==>
                              g in p.roots || g in p.inits
                              || exists y :: 0 <= y < x && names[y] in p.funcs && Mentions(p.funcs[names[y]], g)
    {
      var syms := FuncSyms(p.funcs[names[x]]);
      esc := esc + syms;
    }
    forall g ensures g in esc <==> Escapes(p, g) { EscapesIs(p, names, g); }
  }

  method FuncSyms(f: Func) returns (syms: set<int>)
    ensures forall g :: g in syms <==> Mentions(f, g)
  {
    hide BlockSyms, Mentions;
    syms := {};
    for b := 0 to |f.blocks|
      invariant forall g :: g in syms <==> exists c :: 0 <= c < b && g in BlockSyms(f.blocks[c])
    {
      syms := syms + BlockSyms(f.blocks[b]);
    }
    forall g ensures g in syms <==> Mentions(f, g) { SymsMention(f, g); }
  }

  // ----- the iteration -----

  const IPPASSES: nat := 6

  lemma {:induction false} TopSound(p: Prog, ip: Ip)
    requires Shaped(p, ip) && (forall f, k :: f in p.funcs && 0 <= k < |ip.param[f]| ==> ip.param[f][k] == TOP)
    requires forall f :: f in p.funcs ==> ip.ret[f] == TOP
    ensures IpSound(p, ip)
  {
  }

  predicate CallsByName(f: Func, g: int) {
    exists b :: 0 <= b < |f.blocks| && exists i :: 0 <= i < |f.blocks[b].body| && f.blocks[b].body[i].op == Call(g)
  }

  /** The functions whose facts a commit made stale: those whose own parameters tightened, and the
      callers of those whose returns did. */
  function Stale(p: Prog, ip: Ip, ip': Ip): set<int>
    requires Shaped(p, ip) && Shaped(p, ip')
  {
    set n | n in p.funcs && (ip'.param[n] != ip.param[n]
        || exists g :: g in p.funcs && ip'.ret[g] != ip.ret[g] && CallsByName(p.funcs[n], g))
  }

  /** The facts of f follow from the current bounds: each value is within its rule on its operands'
      types and its callee's return bound, and each parameter within its bound. */
  ghost predicate Current(p: Prog, ip: Ip, f: int, fs: FactSet)
    requires f in p.funcs && Shaped(p, ip)
  {
    && AllRuled(p.funcs[f], ContextOf(ip, f), FactSet(map[], []), fs.max)
    && (Distinct(p.funcs[f].params) ==>
          forall k :: 0 <= k < |p.funcs[f].params| ==> Cap(fs.max, p.funcs[f].params[k]) <= ip.param[f][k])
  }

  predicate NoLooser(p: Prog, ip: Ip, ip0: Ip) {
    Shaped(p, ip) && Shaped(p, ip0)
    && (forall f, k :: f in p.funcs && 0 <= k < |ip.param[f]| ==> ip.param[f][k] <= ip0.param[f][k])
    && forall f :: f in p.funcs ==> ip.ret[f] <= ip0.ret[f]
  }

  ghost predicate AllCurrent(p: Prog, ip: Ip, facts: FactMap)
    requires Shaped(p, ip) && facts.Keys <= p.funcs.Keys
  {
    forall f :: f in facts ==> Current(p, ip, f, facts[f])
  }

  /** The facts a commit leaves fresh are still current. */
  lemma {:induction false} StaysCurrent(p: Prog, ip: Ip, ip': Ip, f: int, fs: FactSet)
    requires f in p.funcs && Shaped(p, ip) && Shaped(p, ip') && Current(p, ip, f, fs) && f !in Stale(p, ip, ip')
    ensures Current(p, ip', f, fs)
  {
    var g := p.funcs[f];
    forall b, i | IsIns(g, b, i)
      ensures Ruled(g, ContextOf(ip', f), FactSet(map[], []), fs.max, b, i)
    {
      var d := g.blocks[b].body[i];
      assert Ruled(g, ContextOf(ip, f), FactSet(map[], []), fs.max, b, i);
      if d.op.Call? && d.op.callee in p.funcs {
        assert CallsByName(g, d.op.callee);
      }
      hide InsBound;
      assert RetOf(ip.ret, d) == RetOf(ip'.ret, d);
    }
  }

  /** The k-th argument of every site of g is a constant of at most m. */
  ghost predicate ConstsUnder(p: Prog, g: int, k: int, m: Word) {
    g in p.funcs && 0 <= k < |p.funcs[g].params|
    && forall fn, b, i :: FullSite(p, fn, b, i, g) ==>
                            var v := SiteArgs(p.funcs[fn], b, i)[k]; v.Const? && ConstWord(v) <= m
  }

  /** Bounds no looser than the constants passed, wherever every caller is in sight. */
  ghost predicate ConstsKnown(p: Prog, ip: Ip)
    requires Shaped(p, ip)
  {
    forall g, k, m :: !Escapes(p, g) && !HasShort(p, g) && HasFull(p, g) && ConstsUnder(p, g, k, m) ==>
                        ip.param[g][k] <= m
  }

  lemma {:induction false} TightKnows(p: Prog, facts: FactMap, ip: Ip)
    requires Shaped(p, ip) && Tightened(p, facts, ip) && facts.Keys == p.funcs.Keys
    ensures ConstsKnown(p, ip)
  {
    hide Escapes, HasShort, HasFull;
    forall g, k, m | !Escapes(p, g) && !HasShort(p, g) && HasFull(p, g) && ConstsUnder(p, g, k, m)
      ensures ip.param[g][k] <= m
    {
      assert ArgsUnder(p, facts, g, k, m);
    }
  }

  class Analysis {
    const p: Prog
    const names: seq<int>
    const esc: set<int>
    var ip: Ip
    var facts: FactMap

    ghost predicate Valid()
      reads this
    {
      && ProgOk(p) && Lists(p, names) && (forall g :: g in esc <==> Escapes(p, g))
      && IpSound(p, ip) && facts.Keys <= p.funcs.Keys && AllHold(p, facts)
    }

    /** Nothing known: every bound at the top. */
    constructor (p: Prog, names: seq<int>, esc: set<int>)
      requires ProgOk(p) && Lists(p, names) && forall g :: g in esc <==> Escapes(p, g)
      ensures Valid() && this.p == p && this.names == names && this.esc == esc && facts == map[]
    {
      this.p, this.names, this.esc := p, names, esc;
      ip := Ip(map f | f in p.funcs :: seq(|p.funcs[f].params|, _ => TOP), map f | f in p.funcs :: TOP);
      facts := map[];
      new;
      TopSound(p, ip);
    }

    /** Re-derives the facts of the functions marked dirty, under the current bounds. */
    method Refresh(dirty: set<int>)
      requires Valid()
      modifies this`facts
      ensures Valid() && ip == old(ip)
      ensures facts.Keys == old(facts).Keys + p.funcs.Keys * dirty
      ensures forall f :: f in old(facts) && f !in dirty ==> facts[f] == old(facts)[f]
      ensures forall f :: f in p.funcs && f in dirty ==> Sound(p.funcs[f], ContextOf(ip, f), facts[f])
      ensures forall f :: f in p.funcs && f in dirty ==> Current(p, ip, f, facts[f])
    {
      hide Sound, FactsHold, Ok, Escapes, AllRuled;
      for x := 0 to |names|
        invariant Valid() && ip == old(ip)
        invariant forall f :: f in facts <==> f in old(facts) || (f in dirty && exists y :: 0 <= y < x && names[y] == f)
        invariant forall f :: f in old(facts) && f !in dirty ==> facts[f] == old(facts)[f]
        invariant forall y :: 0 <= y < x && names[y] in dirty ==>
                                names[y] in facts && Sound(p.funcs[names[y]], ContextOf(ip, names[y]), facts[names[y]])
                                && Current(p, ip, names[y], facts[names[y]])
      {
        var n := names[x];
        if n in dirty {
          var fs := FactsOf(p.funcs[n], ContextOf(ip, n));
          SoundHolds(p, ip, n, fs);
          assert Current(p, ip, n, fs);
          hide Current;
          facts := facts[n := fs];
        }
      }
      forall f | f in p.funcs && f in dirty ensures exists y :: 0 <= y < |names| && names[y] == f { assert f in names; }
      forall f ensures f in facts.Keys <==> f in old(facts).Keys + p.funcs.Keys * dirty {
        if f in facts && f !in old(facts) { assert f in facts.Keys && f in p.funcs.Keys; }
      }
    }

    /** One round: count every site and return under the current facts, and commit. */
    method Tighten() returns (before: Ip)
      requires Valid() && facts.Keys == p.funcs.Keys
      modifies this`ip
      ensures Valid() && before == old(ip)
      ensures NoLooser(p, ip, before)
      ensures Tightened(p, facts, ip)
    {
      hide FactsHold, Ok, Escapes, FuncCovered, ActBounded, RunOk, Tight, Tightened;
      before := ip;
      forall f | f in names ensures f in p.funcs && f in facts { }
      var sc := ScanAll(p, facts, names);
      forall f | f in p.funcs ensures FuncCovered(p, facts, sc, f) { assert f in names; }
      CommitSound(p, ip, facts, sc, esc);
      CommitTight(p, ip, facts, sc, esc);
      ip := Commit(p, ip, sc, esc);
    }

    /** Tightens the bounds and brings the facts they made stale up to date. */
    method Round() returns (done: bool)
      requires Valid() && facts.Keys == p.funcs.Keys && AllCurrent(p, ip, facts)
      modifies this
      ensures Valid() && facts.Keys == p.funcs.Keys && AllCurrent(p, ip, facts) && ConstsKnown(p, ip)
      ensures NoLooser(p, ip, old(ip))
      ensures done ==> facts == old(facts)
    {
      hide FactsHold, Ok, Escapes, RunOk, Sound, Stale, Current, ConstsKnown, Tightened, Lists, ProgOk, ActBounded;
      var before := Tighten();
      TightKnows(p, facts, ip);
      var stale := Stale(p, before, ip);
      forall f | f in facts && f !in stale ensures Current(p, ip, f, facts[f]) {
        assert Current(p, before, f, facts[f]);
        StaysCurrent(p, before, ip, f, facts[f]);
      }
      done := stale == {};
      if !done {
        Refresh(stale);
        assert facts.Keys == p.funcs.Keys;
      }
    }

    /** Rounds until nothing is stale or the cap is reached. Whenever it stops, every fact and every
        bound holds in every activation of every run, the facts are those of the bounds, and the
        bounds are no looser than the constants passed. */
    method Iterate()
      requires Valid()
      modifies this
      ensures Valid() && facts.Keys == p.funcs.Keys
      ensures NoLooser(p, ip, old(ip))
      ensures AllCurrent(p, ip, facts) && ConstsKnown(p, ip)
    {
      hide FactsHold, Ok, Escapes, RunOk, Sound, Current, ConstsKnown, Lists, ProgOk, ActBounded;
      Refresh(p.funcs.Keys);
      assert facts.Keys == p.funcs.Keys;
      var pass, done := 0, false;
      while !done && pass + 1 < IPPASSES
        invariant Valid() && facts.Keys == p.funcs.Keys && NoLooser(p, ip, old(ip))
        invariant AllCurrent(p, ip, facts) && (pass > 0 || done ==> ConstsKnown(p, ip))
        decreases IPPASSES - pass, !done
      {
        done := Round();
        pass := pass + 1;
      }
    }
  }

  /** The whole analysis of a program. */
  method AnalyzeBounds(p: Prog) returns (ip: Ip, facts: FactMap)
    requires ProgOk(p)
    ensures IpSound(p, ip) && facts.Keys == p.funcs.Keys && AllHold(p, facts)
    ensures AllCurrent(p, ip, facts) && ConstsKnown(p, ip)
  {
    hide ProgOk, Ok, Escapes, RunOk, AllHold, Current, ConstsKnown;
    var names := Colouring.SetToSeq(p.funcs.Keys);
    forall x | 0 <= x < |names| ensures names[x] in p.funcs { assert names[x] in names; }
    var esc := EscapedFuncs(p, names);
    var a := new Analysis(p, names, esc);
    a.Iterate();
    ip, facts := a.ip, a.facts;
  }
}
