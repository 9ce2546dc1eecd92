/** The slot-colouring prepass (host/dmacc/func.go): uses, alias charging, live ranges by a
    backward worklist, greedy colouring and the block-local pool give a sound allocation. */
module Colouring {
  import opened Words
  import opened Cfg
  import opened Slots

  type Pairs = set<(int, int)>

  // ----- uses -----

  /** One of the first i instructions of b reads n. */
  ghost predicate BodyReads(f: Func, b: int, i: int, n: int) {
    exists k :: k < i && InsUses(f, b, k, n)
  }

  ghost predicate BodyCasts(f: Func, b: int, i: int, n: int, m: int) {
    exists k :: k < i && InsUses(f, b, k, n) && IsCast(f.blocks[b].body[k]) && f.blocks[b].body[k].res == m
  }

  ghost predicate PhisRead(f: Func, c: int, j: int, b: int, n: int) {
    exists k :: k < j && EdgeUses(f, c, k, b, n)
  }

  /** The names an instruction reads. */
  function Names(srcs: seq<Src>): (ns: set<int>)
    ensures forall n :: n in ns <==> Local(n) in srcs
  {
    set s | s in srcs && s.Local? :: s.n
  }

  function Cross(ns: set<int>, b: int): (r: Pairs)
    ensures forall n, u :: (n, u) in r <==> n in ns && u == b
  {
    set n | n in ns :: (n, b)
  }

  /** Instruction reads of one block; casts are noted with their sources. */
  method BodyUses(f: Func, b: int) returns (used: Pairs, casts: Pairs)
    requires IsBlock(f, b)
    ensures forall n, u :: (n, u) in used <==> u == b && BodyReads(f, b, |f.blocks[b].body|, n)
    ensures forall n, m :: (n, m) in casts <==> BodyCasts(f, b, |f.blocks[b].body|, n, m)
  {
    var body := f.blocks[b].body;
    used, casts := {}, {};
    for i := 0 to |body|
      invariant forall n, u :: (n, u) in used <==> u == b && BodyReads(f, b, i, n)
      invariant forall n, m :: (n, m) in casts <==> BodyCasts(f, b, i, n, m)
    {
      var names := Names(Operands(body[i]));
      assert forall n :: n in names <==> InsUses(f, b, i, n);
      forall n ensures BodyReads(f, b, i + 1, n) <==> BodyReads(f, b, i, n) || n in names { }
      forall n, m ensures BodyCasts(f, b, i + 1, n, m) <==>
          BodyCasts(f, b, i, n, m) || (n in names && IsCast(body[i]) && body[i].res == m) { }
      used := used + Cross(names, b);
      if IsCast(body[i]) { casts := casts + Cross(names, body[i].res); }
    }
  }

  /** Phi operands are read at the end of their edge's block. */
  method PhiUses(f: Func, c: int) returns (used: Pairs)
    requires IsBlock(f, c)
    ensures forall n, u :: (n, u) in used <==> PhisRead(f, c, |f.blocks[c].phis|, u, n)
  {
    var phis := f.blocks[c].phis;
    used := {};
    for j := 0 to |phis|
      invariant forall n, u :: (n, u) in used <==> PhisRead(f, c, j, u, n)
    {
      var args := phis[j].args;
      var more := set p | p in args && args[p].Local? :: (args[p].n, p);
      assert forall n, u :: (n, u) in more <==> EdgeUses(f, c, j, u, n);
      forall n, u ensures PhisRead(f, c, j + 1, u, n) <==> PhisRead(f, c, j, u, n) || EdgeUses(f, c, j, u, n) { }
      used := used + more;
    }
  }

  ghost predicate Reads(f: Func, c: int, n: int, u: int) {
    IsBlock(f, c) && ((u == c && (BodyReads(f, c, |f.blocks[c].body|, n) || Local(n) in TermOperands(f.blocks[c].term)))
        || PhisRead(f, c, |f.blocks[c].phis|, u, n))
  }

  method BlockUses(f: Func, b: int) returns (used: Pairs, casts: Pairs)
    requires IsBlock(f, b)
    ensures forall n, u :: (n, u) in used <==> Reads(f, b, n, u)
    ensures forall n, m :: (n, m) in casts <==> BodyCasts(f, b, |f.blocks[b].body|, n, m)
  {
    hide BodyReads, BodyCasts, PhisRead;
    used, casts := BodyUses(f, b);
    var phis := PhiUses(f, b);
    used := used + Cross(Names(TermOperands(f.blocks[b].term)), b) + phis;
  }

  lemma {:induction false} ReadsIsUsed(f: Func, n: int, u: int)
    requires Ssa(f)
    ensures UsedIn(f, u, n) <==> exists c :: Reads(f, c, n, u)
  {
    if UsedIn(f, u, n) {
      if i :| InsUses(f, u, i, n) {
        assert BodyReads(f, u, |f.blocks[u].body|, n);
        assert Reads(f, u, n, u);
      } else if Local(n) in TermOperands(f.blocks[u].term) {
        assert Reads(f, u, n, u);
      } else {
        var c, j :| EdgeUses(f, c, j, u, n);
        assert PhisRead(f, c, |f.blocks[c].phis|, u, n);
        assert Reads(f, c, n, u);
      }
    }
  }

  lemma {:induction false} CastsAreCasts(f: Func, n: int, m: int)
    requires Ssa(f)
    ensures Casts(f, n, m) <==> exists b :: IsBlock(f, b) && BodyCasts(f, b, |f.blocks[b].body|, n, m)
  {
    if Casts(f, n, m) {
      var b := f.def[m].b;
      assert InsUses(f, b, f.def[m].i, n);
      assert BodyCasts(f, b, |f.blocks[b].body|, n, m);
    }
  }

  /** All reads and casts of a function. */
  method ScanUses(f: Func) returns (used: Pairs, casts: Pairs)
    requires Ssa(f)
    ensures forall n, u :: (n, u) in used <==> UsedIn(f, u, n)
    ensures forall n, m :: (n, m) in casts <==> Casts(f, n, m)
  {
    hide Reads, BodyCasts, UsedIn, Casts;
    used, casts := {}, {};
    for b := 0 to |f.blocks|
      invariant forall n, u :: (n, u) in used <==> exists c :: 0 <= c < b && Reads(f, c, n, u)
      invariant forall n, m :: (n, m) in casts <==> exists c :: 0 <= c < b && BodyCasts(f, c, |f.blocks[c].body|, n, m)
    {
      var us, cs := BlockUses(f, b);
      used, casts := used + us, casts + cs;
    }
    forall n, u ensures (n, u) in used <==> UsedIn(f, u, n) { ReadsIsUsed(f, n, u); ReadsInside(f, n, u); }
    forall n, m ensures (n, m) in casts <==> Casts(f, n, m) { CastsAreCasts(f, n, m); }
  }

  lemma {:induction false} ReadsInside(f: Func, n: int, u: int)
    ensures forall c :: Reads(f, c, n, u) ==> IsBlock(f, c)
  {
  }

  // ----- alias charging -----

  /** A set of reads closed under casts holds every charged read. */
  lemma {:induction false} ClosedCharges(f: Func, used: Pairs, n: int, u: int, k: nat)
    requires forall n, u :: UsedIn(f, u, n) ==> (n, u) in used
    requires forall n, m, u :: Casts(f, n, m) && (m, u) in used ==> (n, u) in used
    requires ChargedBy(f, n, u, k)
    ensures (n, u) in used
    decreases k
  {
    if !UsedIn(f, u, n) {
      var m :| Casts(f, n, m) && ChargedBy(f, m, u, k - 1);
      ClosedCharges(f, used, m, u, k - 1);
    }
  }

  /** Charge the reads of a cast to its source, until nothing changes. */
  method Charge(f: Func, used: Pairs, casts: Pairs) returns (charged: Pairs)
    requires forall n, u :: (n, u) in used <==> UsedIn(f, u, n)
    requires forall n, m :: (n, m) in casts <==> Casts(f, n, m)
    ensures forall n, u :: (n, u) in charged <==> Charged(f, n, u)
  {
    charged := used;
    forall n, u | UsedIn(f, u, n) ensures Charged(f, n, u) { assert ChargedBy(f, n, u, 0); }
    var room := Room(used, casts);
    while exists c, r :: c in casts && r in charged && c.1 == r.0 && (c.0, r.1) !in charged
      invariant used <= charged <= room
      invariant forall n, u :: (n, u) in charged ==> Charged(f, n, u)
      decreases |room - charged|
    {
      var c, r :| c in casts && r in charged && c.1 == r.0 && (c.0, r.1) !in charged;
      CastCharges(f, c.0, c.1, r.1);
      var next := charged + {(c.0, r.1)};
      InRoom(used, casts, room, charged, c, r);
      Shrinks(room, charged, (c.0, r.1));
      charged := next;
    }
    forall n, u | Charged(f, n, u) ensures (n, u) in charged {
      var k: nat :| ChargedBy(f, n, u, k);
      forall n, m, u | Casts(f, n, m) && (m, u) in charged ensures (n, u) in charged {
        assert (n, m) in casts;
      }
      ClosedCharges(f, charged, n, u, k);
    }
  }

  /** Every read a charge could add. */
  function Room(used: Pairs, casts: Pairs): Pairs {
    used + set c, r | c in casts && r in used :: (c.0, r.1)
  }

  lemma {:induction false} InRoom(used: Pairs, casts: Pairs, room: Pairs, charged: Pairs, c: (int, int), r: (int, int))
    requires room == Room(used, casts) && charged <= room && c in casts && r in charged
    ensures (c.0, r.1) in room
  {
    if r in used {
    } else {
      var c', r' :| c' in casts && r' in used && r == (c'.0, r'.1);
      assert (c.0, r.1) == (c.0, r'.1);
    }
  }

  lemma {:induction false} Shrinks(room: Pairs, charged: Pairs, x: (int, int))
    requires x in room && x !in charged
    ensures |room - (charged + {x})| < |room - charged|
  {
    assert room - charged == (room - (charged + {x})) + {x};
  }

  // ----- live ranges -----

  lemma {:induction false} Fewer(all: set<int>, a: set<int>, b: set<int>)
    requires a <= b && a != b && b <= all
    ensures |all - b| < |all - a|
  {
    assert b - a != {} by { assert b == a + (b - a); }
    assert all - a == (all - b) + (b - a);
    assert |all - a| == |all - b| + |b - a|;
  }

  method SetToSeq(s: set<int>) returns (r: seq<int>)
    ensures forall x :: x in r <==> x in s
    ensures forall i, j :: 0 <= i < j < |r| ==> r[i] != r[j]
  {
    r := [];
    var rest := s;
    while rest != {}
      invariant rest <= s && forall x :: x in r <==> x in s - rest
      invariant forall i, j :: 0 <= i < j < |r| ==> r[i] != r[j]
      decreases |rest|
    {
      Inhabited(rest);
      var x :| x in rest;
      r, rest := r + [x], rest - {x};
    }
  }

  /** The walk so far: live blocks have a way to a use; a live block off the stack has been
      expanded. */
  ghost predicate Walked(f: Func, n: int, live: set<int>, stack: seq<int>) {
    && n in f.def && f.def[n].b !in live
    && (forall b :: b in stack ==> b in live)
    && (forall b :: b in live ==> IsBlock(f, b) && LiveIn(f, n, b))
    && (forall b, p :: b in live && b !in stack && Edge(GraphOf(f), p, b) && p != f.def[n].b ==> p in live)
  }

  /** Expands one block taken off the stack. */
  method Expand(f: Func, n: int, b: int, preds: seq<int>, live: set<int>, stack: seq<int>)
    returns (live': set<int>, stack': seq<int>)
    requires Ssa(f) && Walked(f, n, live, stack + [b]) && forall p :: p in preds <==> Edge(GraphOf(f), p, b)
    ensures Walked(f, n, live', stack') && live <= live' && (live' == live ==> stack' == stack)
  {
    hide Ssa, LiveIn;
    live', stack' := live, stack;
    var def := f.def[n].b;
    for i := 0 to |preds|
      invariant live <= live' && def !in live' && (live' == live ==> stack' == stack)
      invariant forall x :: x in stack' ==> x in live'
      invariant forall x :: x in stack ==> x in stack'
      invariant forall x :: x in live' ==> x in live || x in stack'
      invariant forall x :: x in live' ==> IsBlock(f, x) && LiveIn(f, n, x)
      invariant forall k :: 0 <= k < i && preds[k] != def ==> preds[k] in live'
    {
      var p := preds[i];
      assert p in preds;
      if p != def && p !in live' {
        LiveBack(f, n, p, b);
        live', stack' := live' + {p}, stack' + [p];
      }
    }
  }

  lemma {:induction false} WalkedTop(f: Func, n: int, live: set<int>, stack: seq<int>)
    requires Ssa(f) && Walked(f, n, live, stack) && stack != []
    ensures IsBlock(f, stack[|stack| - 1])
  {
    assert stack[|stack| - 1] in stack;
  }

  lemma {:induction false} WalkedWithin(f: Func, n: int, live: set<int>, stack: seq<int>)
    requires Walked(f, n, live, stack)
    ensures live <= Blocks(|f.blocks|)
  {
  }

  /** Walks until no block is left to expand. */
  method Walk(f: Func, n: int, live: set<int>, preds: seq<seq<int>>) returns (live': set<int>)
    requires Ssa(f) && n in f.def && PredsOf(GraphOf(f), preds)
    requires f.def[n].b !in live && forall b :: b in live ==> IsBlock(f, b) && LiveIn(f, n, b)
    ensures Walked(f, n, live', []) && live <= live'
  {
    hide Ok, LiveIn, Walked;
    live' := live;
    var stack := SetToSeq(live);
    ghost var all := Blocks(|f.blocks|);
    WalkStarts(f, n, live, stack);
    while stack != []
      invariant Walked(f, n, live', stack) && live' <= all && live <= live'
      decreases |all - live'|, |stack|
    {
      var b := stack[|stack| - 1];
      ghost var was := live';
      assert stack == stack[..|stack| - 1] + [b];
      WalkedTop(f, n, live', stack);
      hide Ssa;
      live', stack := Expand(f, n, b, preds[b], live', stack[..|stack| - 1]);
      WalkedWithin(f, n, live', stack);
      if live' != was { Fewer(all, was, live'); }
    }
  }

  /** The backward walk from the use blocks, stopping at the definition. */
  method LiveOf(f: Func, n: int, uses: set<int>, preds: seq<seq<int>>) returns (live: set<int>)
    requires Ssa(f) && n in f.def && (forall u :: u in uses <==> Charged(f, n, u))
    requires (forall u :: u in uses ==> IsBlock(f, u)) && PredsOf(GraphOf(f), preds)
    ensures forall b :: b in live <==> LiveIn(f, n, b)
    ensures forall b :: b in live ==> IsBlock(f, b)
  {
    hide Ssa, Charged, LiveIn, Walked, PredsOf;
    live := uses - {f.def[n].b};
    forall b | b in live ensures LiveIn(f, n, b) { UseLive(f, n, b); }
    live := Walk(f, n, live, preds);
    WalkEnds(f, n, live);
  }

  lemma {:induction false} WalkStarts(f: Func, n: int, live: set<int>, stack: seq<int>)
    requires n in f.def && f.def[n].b !in live && (forall b :: b in stack <==> b in live)
    requires forall b :: b in live ==> IsBlock(f, b) && LiveIn(f, n, b)
    ensures Walked(f, n, live, stack) && live <= Blocks(|f.blocks|)
  {
    hide LiveIn;
  }

  lemma {:induction false} WalkEnds(f: Func, n: int, live: set<int>)
    requires Walked(f, n, live, []) && forall u :: Charged(f, n, u) && u != f.def[n].b ==> u in live
    ensures forall b :: b in live <==> LiveIn(f, n, b)
    ensures forall b :: b in live ==> IsBlock(f, b)
  {
    hide LiveIn, Charged;
    forall b | LiveIn(f, n, b) ensures b in live { LiveReached(f, n, live, b); }
  }

  lemma {:induction false} UseLive(f: Func, n: int, b: int)
    requires n in f.def && IsBlock(f, b) && Charged(f, n, b) && b != f.def[n].b
    ensures LiveIn(f, n, b)
  {
    assert LiveTrail(f, n, b, [b]);
  }

  /** A set with the uses, closed under predecessors, holds every live block. */
  lemma {:induction false} LiveReached(f: Func, n: int, live: set<int>, b: int)
    requires n in f.def && LiveIn(f, n, b)
    requires forall u :: Charged(f, n, u) && u != f.def[n].b ==> u in live
    requires forall b, p :: b in live && Edge(GraphOf(f), p, b) && p != f.def[n].b ==> p in live
    ensures b in live
  {
    var q :| LiveTrail(f, n, b, q);
    WalkReaches(f, n, live, q, 0);
  }

  lemma {:induction false} LiveBack(f: Func, n: int, p: int, b: int)
    requires Ssa(f) && LiveIn(f, n, b) && Edge(GraphOf(f), p, b) && n in f.def && p != f.def[n].b
    ensures LiveIn(f, n, p)
  {
    var q :| LiveTrail(f, n, b, q);
    var r := [p] + q;
    forall i | 0 < i < |r|
      ensures Edge(GraphOf(f), r[i - 1], r[i])
    {
      assert i > 1 ==> r[i] == q[i - 1] && r[i - 1] == q[i - 2];
    }
    assert LiveTrail(f, n, p, r);
  }

  lemma {:induction false} WalkReaches(f: Func, n: int, live: set<int>, q: seq<int>, i: nat)
    requires n in f.def && i < |q| && LiveTrail(f, n, q[0], q)
    requires forall u :: Charged(f, n, u) && u != f.def[n].b ==> u in live
    requires forall b, p :: b in live && Edge(GraphOf(f), p, b) && p != f.def[n].b ==> p in live
    ensures q[i] in live
    decreases |q| - i
  {
    if i < |q| - 1 {
      WalkReaches(f, n, live, q, i + 1);
      assert Edge(GraphOf(f), q[i + 1 - 1], q[i + 1]);
    }
  }

  // ----- colouring -----

  /** Same colour, disjoint ranges. */
  ghost predicate Coloured(slotOf: map<int, nat>, live: map<int, set<int>>) {
    forall n, m :: n in slotOf && m in slotOf && n in live && m in live && n != m && slotOf[n] == slotOf[m] ==>
                  live[n] !! live[m]
  }

  /** Each slot's set covers the ranges of the values on it. */
  ghost predicate Covered(slotOf: map<int, nat>, live: map<int, set<int>>, slots: seq<set<int>>) {
    forall n :: n in slotOf && n in live ==> slotOf[n] < |slots| && live[n] <= slots[slotOf[n]]
  }

  /** Each block of a slot's set is in the range of one of the first k candidates, which is on it. */
  ghost predicate Tiled(cands: seq<int>, k: int, slotOf: map<int, nat>, live: map<int, set<int>>,
                        slots: seq<set<int>>) {
    0 <= k <= |cands|
    && forall s, b :: 0 <= s < |slots| && b in slots[s] ==>
                        exists j :: 0 <= j < k && On(cands[j], slotOf, live, s) && b in live[cands[j]]
  }

  predicate On(n: int, slotOf: map<int, nat>, live: map<int, set<int>>, s: int) {
    n in slotOf && n in live && slotOf[n] == s
  }

  /** An earlier candidate on slot s is live where candidate i is. */
  ghost predicate Blocked(cands: seq<int>, slotOf: map<int, nat>, live: map<int, set<int>>, i: int, s: int)
    requires 0 <= i < |cands| && cands[i] in live
  {
    exists j :: 0 <= j < i && On(cands[j], slotOf, live, s) && !(live[cands[j]] !! live[cands[i]])
  }

  /** Each of the first k candidates is on the lowest slot that was free for it. */
  ghost predicate Lowest(cands: seq<int>, k: int, slotOf: map<int, nat>, live: map<int, set<int>>) {
    0 <= k <= |cands|
    && forall i, s :: 0 <= i < k && cands[i] in slotOf && cands[i] in live && 0 <= s < slotOf[cands[i]] ==>
                        Blocked(cands, slotOf, live, i, s)
  }

  /** A slot whose set meets the range is blocked by one of its values. */
  lemma {:induction false} MeetsBlocked(cands: seq<int>, k: int, slotOf: map<int, nat>, live: map<int, set<int>>,
                                        slots: seq<set<int>>, s: int)
    requires Tiled(cands, k, slotOf, live, slots) && k < |cands| && cands[k] in live
    requires 0 <= s < |slots| && !(slots[s] !! live[cands[k]])
    ensures Blocked(cands, slotOf, live, k, s)
  {
    var held, range := slots[s], live[cands[k]];
    assert (forall b :: b in held ==> b !in range) ==> held !! range;
    var b :| b in held && b in range;
    var j :| 0 <= j < k && On(cands[j], slotOf, live, s) && b in live[cands[j]];
  }

  /** A new value leaves the earlier candidates as they were. */
  lemma {:induction false} BlockedStays(cands: seq<int>, slotOf: map<int, nat>, live: map<int, set<int>>, i: int,
                                        s: int, n: int, at: nat)
    requires 0 <= i < |cands| && cands[i] in live && Blocked(cands, slotOf, live, i, s) && n !in slotOf
    ensures Blocked(cands, slotOf[n := at], live, i, s)
  {
    var j :| 0 <= j < i && On(cands[j], slotOf, live, s) && !(live[cands[j]] !! live[cands[i]]);
    assert On(cands[j], slotOf[n := at], live, s);
  }

  lemma {:induction false} TiledNext(cands: seq<int>, k: int, slotOf: map<int, nat>, live: map<int, set<int>>,
                                     slots: seq<set<int>>, at: nat)
    requires Tiled(cands, k, slotOf, live, slots) && k < |cands| && cands[k] in live && cands[k] !in slotOf
    requires at < |slots|
    ensures Tiled(cands, k + 1, slotOf[cands[k] := at], live, slots[at := slots[at] + live[cands[k]]])
  {
    var slotOf', slots' := slotOf[cands[k] := at], slots[at := slots[at] + live[cands[k]]];
    forall s, b | 0 <= s < |slots'| && b in slots'[s]
      ensures exists j :: 0 <= j < k + 1 && On(cands[j], slotOf', live, s) && b in live[cands[j]]
    {
      if b in slots[s] {
        var j :| 0 <= j < k && On(cands[j], slotOf, live, s) && b in live[cands[j]];
        assert On(cands[j], slotOf', live, s);
      } else {
        assert On(cands[k], slotOf', live, s);
      }
    }
  }

  lemma TiledNone(cands: seq<int>, live: map<int, set<int>>)
    ensures Tiled(cands, 0, map[], live, []) && Lowest(cands, 0, map[], live)
  {
  }

  lemma TiledWider(cands: seq<int>, k: int, slotOf: map<int, nat>, live: map<int, set<int>>, slots: seq<set<int>>)
    requires Tiled(cands, k, slotOf, live, slots)
    ensures Tiled(cands, k, slotOf, live, slots + [{}])
  {
  }

  lemma {:induction false} LowestNext(cands: seq<int>, k: int, slotOf: map<int, nat>, live: map<int, set<int>>,
                                      slots: seq<set<int>>, at: nat)
    requires Tiled(cands, k, slotOf, live, slots) && Lowest(cands, k, slotOf, live) && k < |cands|
    requires cands[k] in live && cands[k] !in slotOf && (forall i :: 0 <= i < k ==> cands[i] != cands[k])
    requires at <= |slots| && forall s :: 0 <= s < at ==> !(slots[s] !! live[cands[k]])
    ensures Lowest(cands, k + 1, slotOf[cands[k] := at], live)
  {
    hide Blocked, Tiled;
    var slotOf' := slotOf[cands[k] := at];
    forall i, s | 0 <= i < k + 1 && cands[i] in slotOf' && cands[i] in live && 0 <= s < slotOf'[cands[i]]
      ensures Blocked(cands, slotOf', live, i, s)
    {
      if i == k { MeetsBlocked(cands, k, slotOf, live, slots, s); }
      BlockedStays(cands, slotOf, live, i, s, cands[k], at);
    }
  }

  /** The first slot the range does not clash with, or a new one. */
  method FirstFree(slots: seq<set<int>>, range: set<int>) returns (at: nat)
    ensures at <= |slots| && (at < |slots| ==> slots[at] !! range)
    ensures forall k :: 0 <= k < at ==> !(slots[k] !! range)
  {
    at := 0;
    while at < |slots| && !(slots[at] !! range)
      invariant at <= |slots| && forall k :: 0 <= k < at ==> !(slots[k] !! range)
    {
      at := at + 1;
    }
  }

  /** Greedy colouring in candidate order. */
  method Colour(cands: seq<int>, live: map<int, set<int>>) returns (slotOf: map<int, nat>)
    requires forall i, j :: 0 <= i < j < |cands| ==> cands[i] != cands[j]
    requires forall i :: 0 <= i < |cands| ==> cands[i] in live
    ensures Coloured(slotOf, live) && slotOf.Keys == set n | n in cands
    ensures Lowest(cands, |cands|, slotOf, live)
  {
    hide Tiled, Lowest;
    TiledNone(cands, live);
    slotOf := map[];
    var slots: seq<set<int>> := [];
    for i := 0 to |cands|
      invariant Coloured(slotOf, live) && Covered(slotOf, live, slots) && slotOf.Keys == set n | n in cands[..i]
      invariant Tiled(cands, i, slotOf, live, slots) && Lowest(cands, i, slotOf, live)
    {
      var n := cands[i];
      var range := live[n];
      var at := FirstFree(slots, range);
      assert cands[..i + 1] == cands[..i] + [n];
      assert n !in slotOf;
      LowestNext(cands, i, slotOf, live, slots, at);
      if at == |slots| {
        TiledWider(cands, i, slotOf, live, slots);
        slots := slots + [{}];
      }
      TiledNext(cands, i, slotOf, live, slots, at);
      slots := slots[at := slots[at] + range];
      slotOf := slotOf[n := at];
    }
    assert cands[..|cands|] == cands;
  }

  // ----- the pool -----

  /** Block-local words: handed out on demand while a block is lowered, all returned at its end. */
  class Pool {
    var sym: map<int, nat>
    var free: seq<nat>
    var count: nat

    ghost predicate Valid()
      reads this
    {
      && (forall i :: 0 <= i < |free| ==> free[i] < count)
      && (forall i, j :: 0 <= i < j < |free| ==> free[i] != free[j])
      && (forall n :: n in sym ==> sym[n] < count && sym[n] !in free)
      && (forall n, m :: n in sym && m in sym && n != m ==> sym[n] != sym[m])
    }

    constructor ()
      ensures Valid() && sym == map[]
    {
      sym, free, count := map[], [], 0;
    }

    /** The word of a value of the current block: a private one, kept until Release. */
    method Word(n: int) returns (s: nat)
      requires Valid()
      modifies this
      ensures Valid() && n in sym && sym[n] == s && sym.Keys == old(sym.Keys) + {n}
      ensures forall m :: m in old(sym) ==> sym[m] == old(sym)[m]
      ensures n !in old(sym) ==> forall m :: m in old(sym) ==> old(sym)[m] != s
      ensures n in old(sym) || old(free) != [] ==> count == old(count)
    {
      if n in sym { return sym[n]; }
      if |free| > 0 {
        s := free[|free| - 1];
        free := free[..|free| - 1];
      } else {
        s := count;
        count := count + 1;
      }
      sym := sym[n := s];
    }

    /** The finished block's words go back on the free list. */
    method Release()
      requires Valid()
      modifies this
      ensures Valid() && sym == map[] && count == old(count)
      ensures forall n :: n in old(sym) ==> old(sym)[n] in free
      ensures forall s :: s in old(free) ==> s in free
      ensures forall s :: s in free ==> s in old(free) || exists n :: n in old(sym) && old(sym)[n] == s
    {
      while sym.Keys != {}
        invariant Valid() && count == old(count)
        invariant forall n :: n in sym ==> n in old(sym) && sym[n] == old(sym)[n]
        invariant forall n :: n in old(sym) && n !in sym ==> old(sym)[n] in free
        invariant forall s :: s in old(free) ==> s in free
        invariant forall s :: s in free ==> s in old(free) || exists n :: n in old(sym) && old(sym)[n] == s
        decreases |sym.Keys|
      {
        Inhabited(sym.Keys);
        var n :| n in sym.Keys;
        free := free + [sym[n]];
        ghost var keys := sym.Keys;
        sym := map m | m in sym && m != n :: sym[m];
        assert sym.Keys == keys - {n};
      }
    }
  }

  // ----- the whole prepass -----

  /** Per block, whether its phis can be written on the incoming edges. */
  method DirectPhis(f: Func) returns (direct: seq<bool>)
    requires Ssa(f)
    ensures |direct| == |f.blocks| && forall c :: IsBlock(f, c) ==> (direct[c] <==> Direct(f, c))
  {
    direct := [];
    for c := 0 to |f.blocks|
      invariant |direct| == c && forall b :: 0 <= b < c ==> (direct[b] <==> Direct(f, b))
    {
      var d := DirectBlock(f, c);
      direct := direct + [d];
    }
  }

  method DirectBlock(f: Func, c: int) returns (d: bool)
    requires Ssa(f) && IsBlock(f, c)
    ensures d <==> Direct(f, c)
  {
    var phis := f.blocks[c].phis;
    d := true;
    for j := 0 to |phis|
      invariant d <==>
                  forall k, p :: 0 <= k < j && p in phis[k].args && phis[k].args[p].Local? ==>
                                !PhiOf(f, c, phis[k].args[p].n)
    {
      var args := phis[j].args;
      if exists p :: p in args && args[p].Local? && PhiOf(f, c, args[p].n) { d := false; }
    }
    assert forall k :: IsPhi(f, c, k) <==> 0 <= k < |phis|;
  }

  /** The blocks whose edges carry operands of phi n. */
  method Carriers(f: Func, n: int) returns (w: set<int>)
    requires Ssa(f) && n in f.def && f.def[n].i == -1
    ensures forall b :: b in w <==>
                          exists j :: IsPhi(f, f.def[n].b, j) && f.blocks[f.def[n].b].phis[j].res == n
                            && b in f.blocks[f.def[n].b].phis[j].args
  {
    var phis := f.blocks[f.def[n].b].phis;
    w := {};
    for j := 0 to |phis|
      invariant forall b :: b in w <==> exists k :: 0 <= k < j && phis[k].res == n && b in phis[k].args
    {
      if phis[j].res == n { w := w + phis[j].args.Keys; }
    }
  }

  /** The live range of a value: the walk, its definition and its edge-copy writers. */
  method RangeOf(f: Func, n: int, uses: set<int>, preds: seq<seq<int>>, direct: seq<bool>) returns (range: set<int>)
    requires Ssa(f) && n in f.def && (forall u :: u in uses <==> Charged(f, n, u))
    requires (forall u :: u in uses ==> IsBlock(f, u)) && PredsOf(GraphOf(f), preds)
    requires |direct| == |f.blocks| && forall c :: IsBlock(f, c) ==> (direct[c] <==> Direct(f, c))
    ensures forall b :: b in range <==> Range(f, n, b)
  {
    range := LiveOf(f, n, uses, preds);
    range := range + {f.def[n].b};
    if f.def[n].i == -1 && direct[f.def[n].b] {
      var w := Carriers(f, n);
      range := range + w;
    }
    hide LiveIn, Charged, Dominated;
  }

  lemma {:induction false} ChargedBlock(f: Func, n: int, u: int, k: nat)
    requires ChargedBy(f, n, u, k)
    ensures IsBlock(f, u)
    decreases k
  {
    if !UsedIn(f, u, n) {
      var m :| Casts(f, n, m) && ChargedBy(f, m, u, k - 1);
      ChargedBlock(f, m, u, k - 1);
    }
  }

  /** Ranges of all candidates. */
  method Ranges(f: Func, cands: seq<int>, charged: Pairs) returns (live: map<int, set<int>>)
    requires Ssa(f) && (forall n, u :: (n, u) in charged <==> Charged(f, n, u)) && forall n :: n in cands ==> n in f.def
    ensures forall n :: n in cands ==> n in live && forall b :: b in live[n] <==> Range(f, n, b)
  {
    hide Charged, Range, Defined, Dominated;
    var preds := Preds(GraphOf(f));
    var direct := DirectPhis(f);
    live := map[];
    for i := 0 to |cands|
      invariant forall n :: n in cands[..i] ==> n in live && forall b :: b in live[n] <==> Range(f, n, b)
    {
      var n := cands[i];
      assert n in cands;
      var uses := set r | r in charged && r.0 == n :: r.1;
      forall u ensures u in uses <==> Charged(f, n, u) { assert (n, u) in charged <==> Charged(f, n, u); }
      forall u | u in uses ensures IsBlock(f, u) { ChargedInside(f, n, u); }
      var range := RangeOf(f, n, uses, preds, direct);
      live := live[n := range];
      assert cands[..i + 1] == cands[..i] + [n];
    }
    assert cands[..|cands|] == cands;
  }

  lemma {:induction false} ChargedInside(f: Func, n: int, u: int)
    requires Charged(f, n, u)
    ensures IsBlock(f, u)
  {
    var k: nat :| ChargedBy(f, n, u, k);
    ChargedBlock(f, n, u, k);
  }

  /** Pool words for the block-local values, block by block. */
  method PoolWords(f: Func, poolable: set<int>) returns (words: map<int, nat>)
    requires Ssa(f) && forall n :: n in poolable ==> n in f.def
    ensures forall n :: n in words <==> n in poolable
    ensures forall n, m :: n in words && m in words && n != m && n in f.def && m in f.def && words[n] == words[m] ==>
                          f.def[n].b != f.def[m].b
  {
    hide Defined, Dominated, Wired;
    words := map[];
    forall n | n in poolable ensures IsBlock(f, f.def[n].b) { InFunction(f, n); }
    hide Ssa;
    var pool := new Pool();
    for b := 0 to |f.blocks|
      invariant fresh(pool) && pool.Valid()
      invariant forall n :: n in words <==> n in poolable && f.def[n].b < b
      invariant forall n, m :: n in words && m in words && n != m && n in f.def && m in f.def
                               && words[n] == words[m] ==>
                                 f.def[n].b != f.def[m].b
    {
      pool.Release();
      var todo := SetToSeq(set n | n in poolable && f.def[n].b == b);
      for i := 0 to |todo|
        invariant fresh(pool) && pool.Valid() && pool.sym.Keys == set n | n in todo[..i]
      {
        assert todo[..i + 1] == todo[..i] + [todo[i]];
        var _ := pool.Word(todo[i]);
      }
      assert todo[..|todo|] == todo;
      words := words + pool.sym;
    }
  }

  lemma {:induction false} InFunction(f: Func, n: int)
    requires Ssa(f) && n in f.def
    ensures IsBlock(f, f.def[n].b)
  {
  }

  /** A use in another block, or by an opcode that may forward, disqualifies a value from the pool. */
  function EscapeSet(f: Func, used: Pairs, casts: Pairs): set<int> {
    (set r | r in used && r.0 in f.def && f.def[r.0].b != r.1 :: r.0) + set c | c in casts :: c.0
  }

  lemma {:induction false} EscapesIs(f: Func, used: Pairs, casts: Pairs, n: int)
    requires n in f.def && (forall n, u :: (n, u) in used <==> UsedIn(f, u, n))
    requires forall n, m :: (n, m) in casts <==> Casts(f, n, m)
    ensures n in EscapeSet(f, used, casts) <==> Escapes(f, n)
  {
    hide UsedIn, Casts;
    if Escapes(f, n) {
      if m :| Casts(f, n, m) {
        assert (n, m) in casts;
      } else {
        var u :| UsedIn(f, u, n) && u != f.def[n].b;
        assert (n, u) in used;
      }
    } else {
      forall r | r in used && r.0 == n ensures f.def[n].b == r.1 { assert r == (n, r.1); }
      forall c | c in casts ensures c.0 != n {
        assert (c.0, c.1) in casts;
        assert Casts(f, c.0, c.1);
      }
    }
  }

  function Assemble(pool: map<int, nat>, slotOf: map<int, nat>): Alloc {
    map n | n in pool.Keys + slotOf.Keys :: if n in pool then Pl(pool[n]) else Vs(slotOf[n])
  }

  lemma {:induction false} Assembled(f: Func, pool: map<int, nat>, slotOf: map<int, nat>, live: map<int, set<int>>)
    requires forall n :: n in pool ==> n in f.def && f.def[n].i != -1 && !Escapes(f, n)
    requires forall n, m :: n in pool && m in pool && n != m && n in f.def && m in f.def && pool[n] == pool[m] ==>
                           f.def[n].b != f.def[m].b
    requires forall n :: n in slotOf ==> n in f.def && n in live && forall b :: b in live[n] <==> Range(f, n, b)
    requires Coloured(slotOf, live)
    ensures AllocOk(f, Assemble(pool, slotOf))
  {
    hide Escapes, Range;
    var al := Assemble(pool, slotOf);
    forall n, m, b | n in al && m in al && n != m && al[n] == al[m] && al[n].Vs? && Range(f, n, b)
      ensures !Range(f, m, b)
    {
      assert b in live[n] && live[n] !! live[m];
    }
  }

  /** Values that keep to their block take pool words; escaping values and phis are coloured, except
      in functions a fork spans, where they keep dedicated words. */
  method Allocate(f: Func, forks: bool) returns (al: Alloc)
    requires Ssa(f)
    ensures AllocOk(f, al)
    ensures forall n :: n in f.def ==> (Pooled(al, n) <==> !Escapes(f, n) && f.def[n].i != -1)
    ensures forall n :: n in f.def && !Pooled(al, n) ==> (n in al <==> !forks)
  {
    hide Ssa, Range, Charged, Escapes, UsedIn, Casts, EscapeSet;
    var used, casts := ScanUses(f);
    var charged := Charge(f, used, casts);
    var escapes := EscapeSet(f, used, casts);
    forall n | n in f.def ensures n in escapes <==> Escapes(f, n) { EscapesIs(f, used, casts, n); }
    var poolable := set n | n in f.def && n !in escapes && f.def[n].i != -1;
    var pool := PoolWords(f, poolable);
    var cands := SetToSeq(if forks then {} else f.def.Keys - poolable);
    var live := Ranges(f, cands, charged);
    assert forall i :: 0 <= i < |cands| ==> cands[i] in cands;
    var slotOf := Colour(cands, live);
    Assembled(f, pool, slotOf, live);
    al := Assemble(pool, slotOf);
  }
}
