/** Local variables used through their addresses (host/dmacc/func.go): where recursion on static
    frames departs from recursion on fresh ones. */
module Locals {
  import opened Words
  import opened Frames

  // ----- exactly the innermost activation can be written -----

  /** What the static machine does for a store through address v. */
  function Written(b: Static, v: Value, x: Value): Static
    requires b.Static?
  {
    b.(pc := b.pc + 1, mem := b.mem[v.w := x.w])
  }

  /** A word that is not in the frame word of activation i. */
  function Unlike(w: Word): (r: Word)
    ensures r != w
  {
    if w == 0 then 1 else 0
  }

  lemma {:induction false} StoreFns(p: Prog, a: Fresh, v: Value, x: Value, i: nat, o: int)
    requires a.Fresh? && a.stack != [] && Known(p, a.stack) && Where(p, a, v) == Local(i, o)
    ensures var s' := Stores(p, a, v, x).stack;
            Stores(p, a, v, x).Fresh? && Known(p, s') && SameFns(a.stack, s') && o in s'[i].env && s'[i].env[o] == x
  {
  }

  /** An outer activation's words are in its record, not in the frame. */
  lemma {:induction false} OuterMissed(p: Prog, exit: Word, a: Fresh, b: Static, v: Value, x: Value, i: nat, o: int)
    requires Stands(p, exit, a, b) && Where(p, a, v) == Local(i, o) && !Inner(a.stack, i)
    requires x.w != At(b.mem, Home(p, a.stack, i), o)
    ensures !Stands(p, exit, Stores(p, a, v, x), Written(b, v, x))
  {
    var s', h := Stores(p, a, v, x).stack, Home(p, a.stack, i);
    StoreFns(p, a, v, x, i, o);
    HomeByFns(p, a.stack, s', i);
    HomeRange(p, a.stack, i);
    assert p.InFrame(a.stack[i].fn, v.w) ==> !(p.base <= v.w < p.limit);
    assert At(Written(b, v, x).mem, h, o) == At(b.mem, h, o);
    assert !Kept(p, exit, Written(b, v, x).mem, s', i);
  }

  /** Whatever is stored through the address of a frame word, the static machine still stands for
      the fresh one, exactly when the word's activation is the innermost of its function. */
  lemma {:induction false} StoreIff(p: Prog, exit: Word, a: Fresh, b: Static, v: Value, i: nat, o: int)
    requires Stands(p, exit, a, b) && Where(p, a, v) == Local(i, o)
    ensures (forall x: Value :: Stands(p, exit, Stores(p, a, v, x), Written(b, v, x))) <==> Inner(a.stack, i)
  {
    if Inner(a.stack, i) {
      forall x: Value ensures Stands(p, exit, Stores(p, a, v, x), Written(b, v, x)) {
        StoreFns(p, a, v, x, i, o);
        hide Stands, Stores, Where, Inner;
        StoresStands(p, exit, a, b, v, x);
      }
    } else {
      OuterMissed(p, exit, a, b, v, Value(Unlike(At(b.mem, Home(p, a.stack, i), o)), -1), i, o);
    }
  }

  // ----- and exactly it can be read -----

  /** The static machine loads the word of the innermost activation, so a load is right exactly when
      that one's word is the owner's. */
  lemma {:induction false} LoadReads(p: Prog, exit: Word, a: Fresh, b: Static, v: Value, i: nat, o: int, j: nat)
    requires Stands(p, exit, a, b) && Where(p, a, v) == Local(i, o) && o in a.stack[i].env
    requires j < |a.stack| && a.stack[j].fn == a.stack[i].fn && Inner(a.stack, j) && o in a.stack[j].env
    ensures Peek(b.mem, v.w) == a.stack[i].env[o].w <==> a.stack[j].env[o].w == a.stack[i].env[o].w
  {
    assert Kept(p, exit, b.mem, a.stack, j);
  }

  /** Whatever the owner's word holds, a load through its address gives it, exactly when the owner is
      the innermost activation of its function. */
  lemma {:induction false} LoadIff(p: Prog, exit: Word, a: Fresh, b: Static, v: Value, i: nat, o: int)
    requires Stands(p, exit, a, b) && Where(p, a, v) == Local(i, o)
    ensures (forall x: Value, c: Static :: Stands(p, exit, SetLocal(a, i, o, x), c) ==> Peek(c.mem, v.w) == x.w)
       <==> Inner(a.stack, i)
  {
    if Inner(a.stack, i) {
      forall x: Value, c: Static | Stands(p, exit, SetLocal(a, i, o, x), c) ensures Peek(c.mem, v.w) == x.w {
        InnerLoads(p, exit, a, c, v, i, o, x);
      }
    } else {
      var x := Value(Unlike(Peek(b.mem, v.w)), -1);
      var c := b.(mem := b.mem[Home(p, a.stack, i) + o := x.w]);
      HomeSteps(p, exit, a, b, i, o, x);
      HomeRange(p, a.stack, i);
      assert p.InFrame(a.stack[i].fn, v.w) ==> !(p.base <= v.w < p.limit);
      assert Peek(c.mem, v.w) == Peek(b.mem, v.w);
      assert !(Stands(p, exit, SetLocal(a, i, o, x), c) ==> Peek(c.mem, v.w) == x.w);
    }
  }

  lemma {:induction false} InnerLoads(p: Prog, exit: Word, a: Fresh, c: Static, v: Value, i: nat, o: int, x: Value)
    requires a.Fresh? && Where(p, a, v) == Local(i, o) && Inner(a.stack, i) && Known(p, a.stack)
    requires Stands(p, exit, SetLocal(a, i, o, x), c)
    ensures Peek(c.mem, v.w) == x.w
  {
    var s' := SetLocal(a, i, o, x).stack;
    assert SameFns(a.stack, s');
    LaterByFns(a.stack, s', i, i + 1);
    assert Kept(p, exit, c.mem, s', i);
    assert s'[i].env[o] == x && Home(p, s', i) == p.frame[a.stack[i].fn];
    assert At(c.mem, Home(p, s', i), o) == x.w;
  }

  // ----- a local handed down a recursion -----

  /** f(n, p): if n is not zero, x := 0, f(n - 1, &x), return x; else *p := 7, return 7. Word 1 is n,
      2 is p, 3 is x, 4 its address. */
  function Body(): seq<Op> {
    [Br(1, 1, 6),
     Eval(3, [], _ => 0, -1),
     Addr(4, 3),
     Eval(5, [1], (ws: seq<Word>) => if |ws| > 0 then Sub(ws[0], 1) else 0, -1),
     Call(5, 1, [5, 4]),
     Ret(3),
     Eval(5, [], _ => 7, -1),
     Store(2, 5),
     Ret(5)]
  }

  const EXIT: Word := 2000

  function Handing(): Prog {
    Prog(map[1 := Body()], map[1 := 10], map[1 := 6], map[1 := true], map[(1, 4) := 1000], map[1000 := (1, 4)], map[],
        100, 200, {})
  }

  lemma {:induction false} HandingOk()
    ensures Handing().Ok() && EXIT !in Handing().back
  {
    var p := Handing();
    forall f, pc | f in p.code && 0 <= pc < |p.code[f]| ensures p.OpOk(f, pc) {
      assert p.Fn(f) && f == 1;
      assert pc == 0 || pc == 1 || pc == 2 || pc == 3 || pc == 4 || pc == 5 || pc == 6 || pc == 7 || pc == 8;
    }
  }

  const ONE := Value(1, -1)
  const NIL := Value(0, -1)
  const SEVEN := Value(7, -1)
  const AT := Value(13, 0)    // the address of the outer x

  function Outer(pc: int, env: map<int, Value>): Act {
    Act(1, pc, env, 0)
  }

  function Inside(pc: int, env: map<int, Value>): Act {
    Act(1, pc, env, 1)
  }

  /** The outer activation up to its call. */
  lemma {:induction false} OuterClears()
    ensures RunFresh(Handing(), Fresh([Outer(0, map[1 := ONE, 2 := NIL])], map[], 1), 2)
         == Fresh([Outer(2, map[1 := ONE, 2 := NIL, 3 := NIL])], map[], 1)
  {
    var p := Handing();
    var e0 := map[1 := ONE, 2 := NIL];
    var s0, s1, s2 := Fresh([Outer(0, e0)], map[], 1), Fresh([Outer(1, e0)], map[], 1),
        Fresh([Outer(2, e0[3 := NIL])], map[], 1);
    assert StepFresh(p, s0) == s1;
    assert StepFresh(p, s1) == s2;
    hide StepFresh;
    assert RunFresh(p, s2, 0) == s2 && RunFresh(p, s1, 1) == s2;
  }

  lemma {:induction false} OuterFresh()
    ensures RunFresh(Handing(), Fresh([Outer(2, map[1 := ONE, 2 := NIL, 3 := NIL])], map[], 1), 2)
              == Fresh([Outer(4, Env())], map[], 1)
  {
    var p := Handing();
    var e1 := map[1 := ONE, 2 := NIL, 3 := NIL];
    var s2, s3, s4 := Fresh([Outer(2, e1)], map[], 1), Fresh([Outer(3, e1[4 := AT])], map[], 1),
        Fresh([Outer(4, Env())], map[], 1);
    assert StepFresh(p, s2) == s3;
    assert Bare(Values(e1[4 := AT], [1])) == [1];
    assert StepFresh(p, s3) == s4;
    hide StepFresh;
    assert RunFresh(p, s4, 0) == s4 && RunFresh(p, s3, 1) == s4;
  }

  function Env(): map<int, Value> {
    map[1 := ONE, 2 := NIL, 3 := NIL, 4 := AT, 5 := NIL]
  }

  /** The inner one is handed the address of the outer x, */
  lemma {:induction false} InnerEntered()
    ensures RunFresh(Handing(), Fresh([Outer(4, Env())], map[], 1), 3)
         == Fresh([Outer(4, Env()), Inside(7, map[1 := NIL, 2 := AT, 5 := SEVEN])], map[], 2)
  {
    var p := Handing();
    var i0 := map[1 := NIL, 2 := AT];
    assert Params(Values(Env(), [5, 4]), 2) == i0;
    var t0, t1 := Fresh([Outer(4, Env())], map[], 1), Fresh([Outer(4, Env()), Inside(0, i0)], map[], 2);
    var t2, t3 := Fresh([Outer(4, Env()), Inside(6, i0)], map[], 2),
        Fresh([Outer(4, Env()), Inside(7, i0[5 := SEVEN])], map[], 2);
    assert StepFresh(p, t0) == t1;
    assert StepFresh(p, t1) == t2;
    assert StepFresh(p, t2) == t3;
    hide StepFresh;
    assert RunFresh(p, t3, 0) == t3 && RunFresh(p, t2, 1) == t3 && RunFresh(p, t1, 2) == t3;
  }

  /** and writes it, */
  lemma {:induction false} InnerWrote()
    ensures StepFresh(Handing(), Fresh([Outer(4, Env()), Inside(7, map[1 := NIL, 2 := AT, 5 := SEVEN])], map[], 2))
         == Fresh([Outer(4, Env()[3 := SEVEN]), Inside(8, map[1 := NIL, 2 := AT, 5 := SEVEN])], map[], 2)
  {
    var p := Handing();
    var t3 := Fresh([Outer(4, Env()), Inside(7, map[1 := NIL, 2 := AT, 5 := SEVEN])], map[], 2);
    assert Owner(t3.stack, 0, 2) == 0 && Where(p, t3, AT) == Local(0, 3);
    var t4 := SetLocal(t3, 0, 3, SEVEN);
    assert t4.stack == [Outer(4, Env()[3 := SEVEN]), Inside(7, map[1 := NIL, 2 := AT, 5 := SEVEN])];
    assert Stores(p, t3, AT, SEVEN) == Moved(t4);
  }

  /** and the outer returns it. */
  lemma {:induction false} OuterReturned()
    ensures RunFresh(Handing(),
              Fresh([Outer(4, Env()[3 := SEVEN]), Inside(8, map[1 := NIL, 2 := AT, 5 := SEVEN])], map[], 2), 2)
         == Result(SEVEN, map[])
  {
    var p := Handing();
    var t4 := Fresh([Outer(4, Env()[3 := SEVEN]), Inside(8, map[1 := NIL, 2 := AT, 5 := SEVEN])], map[], 2);
    var t5, r := Fresh([Outer(5, Env()[3 := SEVEN][5 := SEVEN])], map[], 2), Result(SEVEN, map[]);
    assert t4.stack[..1] == [Outer(4, Env()[3 := SEVEN])];
    assert StepFresh(p, t4) == t5;
    assert StepFresh(p, t5) == r;
    hide StepFresh;
    assert RunFresh(p, r, 0) == r && RunFresh(p, t5, 1) == r;
  }

  lemma {:induction false} FreshAdd(p: Prog, s: Fresh, j: nat, k: nat)
    ensures RunFresh(p, s, j + k) == RunFresh(p, RunFresh(p, s, j), k)
    decreases j
  {
    hide StepFresh;
    if j > 0 && s.Fresh? { FreshAdd(p, StepFresh(p, s), j - 1, k); }
  }

  lemma {:induction false} StaticAdd(p: Prog, s: Static, j: nat, k: nat)
    ensures RunStatic(p, s, j + k) == RunStatic(p, RunStatic(p, s, j), k)
    decreases j
  {
    hide StepStatic;
    if j > 0 && s.Static? { StaticAdd(p, StepStatic(p, s), j - 1, k); }
  }

  lemma {:induction false} HandedFresh()
    ensures RunFresh(Handing(), Fresh([Outer(0, map[1 := ONE, 2 := NIL])], map[], 1), 10) == Result(SEVEN, map[])
  {
    hide StepFresh, Handing, RunFresh;
    var p, s0 := Handing(), Fresh([Outer(0, map[1 := ONE, 2 := NIL])], map[], 1);
    OuterClears();
    OuterFresh();
    FreshAdd(p, s0, 2, 2);
    InnerEntered();
    InnerWrote();
    OuterReturned();
    var t3 := Fresh([Outer(4, Env()), Inside(7, map[1 := NIL, 2 := AT, 5 := SEVEN])], map[], 2);
    FreshOne(p, t3);
    FreshAdd(p, s0, 4, 6);
    FreshAdd(p, RunFresh(p, s0, 4), 3, 3);
    FreshAdd(p, t3, 1, 2);
  }

  lemma FreshOne(p: Prog, s: Fresh)
    requires s.Fresh?
    ensures RunFresh(p, s, 1) == StepFresh(p, s)
  {
    hide StepFresh;
    assert RunFresh(p, StepFresh(p, s), 0) == StepFresh(p, s);
  }

  /** The static machine up to the outer call: x is zero in the frame, and its address is handed on. */
  lemma {:induction false} OuterStatic(m0: map<int, Word>) returns (m: map<int, Word>)
    requires Peek(m0, 11) == 1 && Peek(m0, 10) == EXIT
    ensures RunStatic(Handing(), Static(1, 0, m0, 108), 4) == Static(1, 4, m, 108)
    ensures Peek(m, 10) == EXIT && Peek(m, 13) == 0 && Peek(m, 14) == 13 && Peek(m, 15) == 0
  {
    var p := Handing();
    var m1 := m0[13 := 0];
    var m2 := m1[14 := 13];
    m := m2[15 := 0];
    var s0, s1, s2, s3, s4 := Static(1, 0, m0, 108), Static(1, 1, m0, 108), Static(1, 2, m1, 108),
        Static(1, 3, m2, 108), Static(1, 4, m, 108);
    assert StepStatic(p, s0) == s1;
    assert StepStatic(p, s1) == s2;
    assert StepStatic(p, s2) == s3;
    assert Fetch(p, 1, m2, [1]) == [1];
    assert StepStatic(p, s3) == s4;
    assert RunStatic(p, s4, 0) == s4 && RunStatic(p, s3, 1) == s4 && RunStatic(p, s2, 2) == s4
        && RunStatic(p, s1, 3) == s4;
  }

  /** The call saves x with the frame and hands on its address. */
  lemma {:induction false} InnerCalled(m: map<int, Word>) returns (n: map<int, Word>)
    requires Peek(m, 10) == EXIT && Peek(m, 13) == 0 && Peek(m, 14) == 13 && Peek(m, 15) == 0
    ensures StepStatic(Handing(), Static(1, 4, m, 108)) == Static(1, 0, n, 116)
    ensures Peek(n, 10) == 1000 && Peek(n, 11) == 0 && Peek(n, 12) == 13 && Peek(n, 108) == EXIT && Peek(n, 111) == 0
  {
    var p, vs := Handing(), [NIL, AT];
    HandingOk();
    assert Fetch(p, 1, m, [5, 4]) == Bare(vs);
    EnterMeans(p, m, 108, 1, 1000, vs);
    var s1 := Enter(p, m, 108, 1, 1000, Bare(vs));
    assert StepStatic(p, Static(1, 4, m, 108)) == s1;
    hide Enter;
    n := s1.mem;
    assert 1 in Params(vs, 2) && 2 in Params(vs, 2);
    assert At(n, 10, 1) == 0 && At(n, 10, 2) == 13;
    assert At(n, 108, 3) == At(m, 10, 3) && At(n, 108, 0) == At(m, 10, 0);
  }

  /** The inner activation's store lands in the frame, */
  lemma {:induction false} InnerStored(n: map<int, Word>) returns (k: map<int, Word>)
    requires Peek(n, 10) == 1000 && Peek(n, 11) == 0 && Peek(n, 12) == 13 && Peek(n, 108) == EXIT && Peek(n, 111) == 0
    ensures RunStatic(Handing(), Static(1, 0, n, 116), 3) == Static(1, 8, k, 116)
    ensures Peek(k, 10) == 1000 && Peek(k, 13) == 7 && Peek(k, 15) == 7 && Peek(k, 108) == EXIT && Peek(k, 111) == 0
  {
    var p := Handing();
    var s1, s2, s3 := Static(1, 0, n, 116), Static(1, 6, n, 116), Static(1, 7, n[15 := 7], 116);
    k := n[15 := 7][13 := 7];
    var s4 := Static(1, 8, k, 116);
    assert StepStatic(p, s1) == s2;
    assert StepStatic(p, s2) == s3;
    assert StepStatic(p, s3) == s4;
    hide StepStatic;
    assert RunStatic(p, s4, 0) == s4 && RunStatic(p, s3, 1) == s4 && RunStatic(p, s2, 2) == s4;
  }

  /** and its epilogue takes it back: the outer activation returns its x unchanged. */
  lemma {:induction false} InnerUndone(k: map<int, Word>) returns (q: Static)
    requires Peek(k, 10) == 1000 && Peek(k, 15) == 7 && Peek(k, 108) == EXIT && Peek(k, 111) == 0
    ensures q.Finished? && q.v == 0 && RunStatic(Handing(), Static(1, 8, k, 116), 2) == q
  {
    var p := Handing();
    CopyMeans(k, 108, 10, 6);
    var c := Copy(k, 108, 10, 6);
    assert Peek(c, 13) == Peek(k, 111) == 0 && Peek(c, 10) == Peek(k, 108) == EXIT;
    hide Copy;
    var s4, s5 := Static(1, 8, k, 116), Static(1, 5, c[15 := 7], 108);
    assert StepStatic(p, s4) == s5;
    q := StepStatic(p, s5);
    assert q.Finished? && q.v == 0;
    hide StepStatic;
    assert RunStatic(p, q, 0) == q && RunStatic(p, s5, 1) == q;
  }

  lemma {:induction false} HandedStatic(m0: map<int, Word>) returns (q: Static)
    requires Peek(m0, 11) == 1 && Peek(m0, 10) == EXIT
    ensures q.Finished? && q.v == 0 && RunStatic(Handing(), Static(1, 0, m0, 108), 10) == q
  {
    hide StepStatic, Handing, RunStatic;
    var p, s0 := Handing(), Static(1, 0, m0, 108);
    var m := OuterStatic(m0);
    var n := InnerCalled(m);
    var k := InnerStored(n);
    q := InnerUndone(k);
    StaticOne(p, Static(1, 4, m, 108));
    StaticAdd(p, s0, 4, 6);
    StaticAdd(p, Static(1, 4, m, 108), 1, 5);
    StaticAdd(p, Static(1, 0, n, 116), 3, 2);
  }

  lemma StaticOne(p: Prog, s: Static)
    requires s.Static?
    ensures RunStatic(p, s, 1) == StepStatic(p, s)
  {
    hide StepStatic;
    assert RunStatic(p, StepStatic(p, s), 0) == StepStatic(p, s);
  }

  /** Called with 1, the program returns 7 on fresh frames and 0 on the static one: the store is to
      a word of an activation that is not the innermost of its function. */
  lemma {:induction false} HandedDown()
    ensures var p := Handing();
            var a, b := Fresh([Act(1, 0, Params([ONE, NIL], 2), 0)], map[], 1), Enter(p, map[], 100, 1, EXIT, [1, 0]);
            && p.Ok() && EXIT !in p.back
            && RunFresh(p, a, 10) == Result(SEVEN, map[])
            && RunStatic(p, b, 10).Finished? && RunStatic(p, b, 10).v == 0
  {
    var p := Handing();
    HandingOk();
    var vs := [ONE, NIL];
    assert Bare(vs) == [1, 0];
    hide RunStatic, RunFresh;
    EnterMeans(p, map[], 100, 1, EXIT, vs);
    var b := Enter(p, map[], 100, 1, EXIT, [1, 0]);
    hide Enter, SameWords, Prog.Ok;
    assert 1 in Params(vs, 2) && At(b.mem, 10, 1) == 1;
    assert b == Static(1, 0, b.mem, 108);
    assert Params(vs, 2) == map[1 := ONE, 2 := NIL];
    hide Holds;
    var q := HandedStatic(b.mem);
    HandedFresh();
  }
}
