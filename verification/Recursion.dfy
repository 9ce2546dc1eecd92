/** Which functions are compiled in frame-stack mode (host/dmacc/dmacc.go): those on a cycle of
    direct calls, and that direct calls alone never re-enter any other. */
module Recursion {
  import opened Words
  import opened Frames

  // ----- the call graph -----

  /** f has a direct call to g, and g is defined. */
  predicate Edge(p: Prog, f: int, g: int) {
    f in p.code && g in p.code && exists i :: 0 <= i < |p.code[f]| && p.code[f][i].Call? && p.code[f][i].g == g
  }

  /** Direct calls lead along q. */
  predicate Chain(p: Prog, q: seq<int>) {
    |q| > 0 && forall i :: 0 < i < |q| ==> Edge(p, q[i - 1], q[i])
  }

  predicate Leads(p: Prog, a: int, b: int, q: seq<int>) {
    |q| > 1 && Chain(p, q) && q[0] == a && q[|q| - 1] == b
  }

  /** At least one call leads from a to b. */
  ghost predicate Reaches(p: Prog, a: int, b: int) {
    exists q :: Leads(p, a, b, q)
  }

  lemma {:induction false} OneCall(p: Prog, a: int, b: int)
    requires Edge(p, a, b)
    ensures Reaches(p, a, b)
  {
    assert Leads(p, a, b, [a, b]);
  }

  lemma {:induction false} FirstCall(p: Prog, a: int, b: int, c: int)
    requires Edge(p, a, b) && Reaches(p, b, c)
    ensures Reaches(p, a, c)
  {
    var q :| Leads(p, b, c, q);
    var r := [a] + q;
    forall i | 0 < i < |r|
      ensures Edge(p, r[i - 1], r[i])
    {
      assert i > 1 ==> r[i] == q[i - 1] && r[i - 1] == q[i - 2];
    }
    assert Leads(p, a, c, r);
  }

  lemma FirstEdge(p: Prog, a: int, b: int, q: seq<int>)
    requires Leads(p, a, b, q)
    ensures exists g :: Edge(p, a, g)
  {
    assert Edge(p, q[0], q[1]);
  }

  lemma TwoEdges(p: Prog, a: int, q: seq<int>)
    requires Leads(p, a, a, q)
    ensures Edge(p, a, q[1]) && (if |q| == 2 then q[1] == a else Edge(p, q[1], q[2]))
  {
    assert Edge(p, q[0], q[1]);
    assert |q| > 2 ==> Edge(p, q[1], q[2]);
  }

  // ----- the search -----

  /** The defined callees of f, in code order. */
  method Callees(p: Prog, f: int) returns (out: seq<int>)
    requires f in p.code
    ensures forall g :: g in out <==> Edge(p, f, g)
  {
    out := [];
    for i := 0 to |p.code[f]|
      invariant forall g :: g in out <==>
                              g in p.code && exists j :: 0 <= j < i && p.code[f][j].Call? && p.code[f][j].g == g
    {
      var op := p.code[f][i];
      if op.Call? && op.g in p.code { out := out + [op.g]; }
    }
  }

  /** Everything added to seen has all its callees there, and none of them is the target. */
  ghost predicate Explored(p: Prog, target: int, old': set<int>, seen: set<int>) {
    old' <= seen && forall x, g :: x in seen && x !in old' && Edge(p, x, g) ==> g in seen && g != target
  }

  /** Depth-first search for a target, past everything seen. */
  method Walk(p: Prog, n: int, target: int, seen0: set<int>) returns (found: bool, seen: set<int>)
    requires n in p.code && seen0 <= p.code.Keys
    ensures seen <= p.code.Keys && n in seen && seen0 <= seen
    ensures found ==> n == target || Reaches(p, n, target)
    ensures !found ==> Explored(p, target, seen0, seen) && (n !in seen0 ==> n != target)
    decreases |p.code.Keys - seen0|
  {
    if n in seen0 { return false, seen0; }
    seen := seen0 + {n};
    if n == target { return true, seen; }
    assert p.code.Keys - seen0 == (p.code.Keys - seen) + {n};
    ghost var start := seen;
    var cs := Callees(p, n);
    for i := 0 to |cs|
      invariant seen <= p.code.Keys && start <= seen && Explored(p, target, start, seen)
      invariant forall j :: 0 <= j < i ==> cs[j] in seen && cs[j] != target
    {
      var c := cs[i];
      assert Edge(p, n, c);
      if c == target {
        OneCall(p, n, target);
        return true, seen;
      }
      assert p.code.Keys - seen <= p.code.Keys - start;
      Fewer(p.code.Keys - seen, p.code.Keys - start);
      var hit;
      ghost var was := seen;
      hit, seen := Walk(p, c, target, seen);
      if hit {
        FirstCall(p, n, c, target);
        return true, seen;
      }
    }
    found := false;
  }

  lemma Fewer(a: set<int>, b: set<int>)
    requires a <= b
    ensures |a| <= |b|
  {
    assert b == a + (b - a);
  }

  /** A set closed under calls is never left. */
  lemma {:induction false} Closed(p: Prog, seen: set<int>, target: int, q: seq<int>)
    requires Chain(p, q) && q[0] in seen && Explored(p, target, {}, seen)
    ensures q[|q| - 1] in seen && (|q| > 1 ==> q[|q| - 1] != target)
    decreases |q|
  {
    if |q| > 1 {
      assert Edge(p, q[0], q[1]);
      if |q| == 2 {
        assert q[1] in seen;
      } else {
        assert Chain(p, q[1..]) by {
          forall i | 0 < i < |q[1..]| ensures Edge(p, q[1..][i - 1], q[1..][i]) { assert Edge(p, q[i], q[i + 1]); }
        }
        Closed(p, seen, target, q[1..]);
      }
    }
  }

  /** Whether calls lead from one function to another. */
  method Search(p: Prog, from: int, target: int) returns (found: bool)
    requires from in p.code
    ensures found <==> Reaches(p, from, target)
  {
    var seen: set<int> := {};
    var cs := Callees(p, from);
    for i := 0 to |cs|
      invariant seen <= p.code.Keys && Explored(p, target, {}, seen)
      invariant forall j :: 0 <= j < i ==> cs[j] in seen && cs[j] != target
    {
      var c := cs[i];
      assert Edge(p, from, c);
      if c == target {
        OneCall(p, from, target);
        return true;
      }
      var hit;
      hit, seen := Walk(p, c, target, seen);
      if hit {
        FirstCall(p, from, c, target);
        return true;
      }
    }
    found := false;
    forall q ensures !Leads(p, from, target, q) {
      if Leads(p, from, target, q) {
        assert Edge(p, q[0], q[1]) && q[1] in cs;
        assert Chain(p, q[1..]) by {
          forall i | 0 < i < |q[1..]| ensures Edge(p, q[1..][i - 1], q[1..][i]) { assert Edge(p, q[i], q[i + 1]); }
        }
        Closed(p, seen, target, q[1..]);
        assert false;
      }
    }
  }

  /** The functions on a cycle of direct calls. */
  method Cyclic(p: Prog, names: seq<int>) returns (cyclic: set<int>)
    requires forall n :: n in names <==> n in p.code
    ensures forall n :: n in cyclic <==> n in p.code && Reaches(p, n, n)
  {
    cyclic := {};
    for i := 0 to |names|
      invariant forall n :: n in cyclic <==> n in names[..i] && Reaches(p, n, n)
    {
      var n := names[i];
      assert names[..i + 1] == names[..i] + [n];
      var r := Search(p, n, n);
      if r { cyclic := cyclic + {n}; }
    }
    assert names[..|names|] == names;
  }

  // ----- direct calls -----

  /** Frame-stack mode is for the functions on cycles. */
  ghost predicate Assigned(p: Prog) {
    forall f :: p.Fn(f) ==> (p.stacked[f] <==> Reaches(p, f, f))
  }

  /** Every activation was entered by a direct call of the one below. */
  ghost predicate Direct(p: Prog, stack: seq<Act>) {
    forall i :: 0 < i < |stack| ==> Edge(p, stack[i - 1].fn, stack[i].fn)
  }

  /** A direct call from a stack of direct calls enters no live function outside frame-stack mode. */
  lemma {:induction false} DirectSafe(p: Prog, s: Fresh, g: int)
    requires Assigned(p) && s.Fresh? && s.stack != [] && Direct(p, s.stack) && p.Fn(g) && Edge(p, Top(s).fn, g)
    ensures !Reentered(p, s, g)
  {
    if Reentered(p, s, g) {
      var i :| 0 <= i < |s.stack| && s.stack[i].fn == g;
      var q := seq(|s.stack| - i, k requires 0 <= k < |s.stack| - i => s.stack[i + k].fn) + [g];
      forall k | 0 < k < |q| ensures Edge(p, q[k - 1], q[k]) {
        if k < |q| - 1 { assert Edge(p, s.stack[i + k - 1].fn, s.stack[i + k].fn); }
      }
      assert Leads(p, g, g, q);
      assert false;
    }
  }

  /** No step of the run calls through a pointer. */
  predicate OnlyDirect(p: Prog, s: Fresh, k: nat)
    decreases k
  {
    k == 0 || !s.Fresh? || (!(Ready(p, s) && NextOp(p, s).CallPtr?) && OnlyDirect(p, StepFresh(p, s), k - 1))
  }

  /** The run never stops at a re-entry. */
  ghost predicate NeverReenters(p: Prog, s: Fresh, k: nat)
    decreases k
  {
    k == 0 || !s.Fresh? ||
    ((Ready(p, s) && IsCall(NextOp(p, s)) && p.Fn(Callee(p, Top(s), NextOp(p, s))) ==>
        !Reentered(p, s, Callee(p, Top(s), NextOp(p, s)))) &&
     NeverReenters(p, StepFresh(p, s), k - 1))
  }

  lemma {:induction false} StepDirect(p: Prog, s: Fresh)
    requires s.Fresh? && Direct(p, s.stack) && !(Ready(p, s) && NextOp(p, s).CallPtr?) && StepFresh(p, s).Fresh?
    ensures Direct(p, StepFresh(p, s).stack)
  {
    var s', n := StepFresh(p, s), |s.stack|;
    StepStack(p, s);
    hide StepFresh, Edge;
    forall i | 0 < i < |s'.stack| ensures Edge(p, s'.stack[i - 1].fn, s'.stack[i].fn) {
      if i < n { assert Edge(p, s.stack[i - 1].fn, s.stack[i].fn); } else { CallEdge(p, s); }
    }
  }

  /** A step keeps the functions on the stack, but for a callee entered or the top one left. */
  lemma {:induction false} StepStack(p: Prog, s: Fresh)
    requires s.Fresh? && StepFresh(p, s).Fresh?
    ensures Ready(p, s)
    ensures var s', n := StepFresh(p, s).stack, |s.stack|;
            && (forall i :: 0 <= i < n && i < |s'| ==> s'[i].fn == s.stack[i].fn)
            && (|s'| > n ==>
                  var g := Callee(p, Top(s), NextOp(p, s));
                  |s'| == n + 1 && IsCall(NextOp(p, s)) && p.Fn(g) && s'[n].fn == g)
  {
    hide Calls, Loads, Stores, Returned, Values, Bare;
    var t := Top(s);
    match NextOp(p, s)
    case Call(_, g, args) => CallStack(p, s, g, args);
    case CallPtr(_, a, args) => CallStack(p, s, p.entry[t.env[a].w], args);
    case Load(d, a) => assert Loads(p, s, d, t.env[a]).Fresh?; LoadStack(p, s, d, t.env[a]);
    case Store(a, x) => assert Stores(p, s, t.env[a], t.env[x]).Fresh?; StoreStack(p, s, t.env[a], t.env[x]);
    case Ret(x) => assert Returned(p, s, t.env[x]).Fresh?; ReturnStack(p, s, t.env[x]);
    case _ =>
  }

  ghost predicate SameFns(s: seq<Act>, s': seq<Act>) {
    forall i :: 0 <= i < |s| && i < |s'| ==> s'[i].fn == s[i].fn
  }

  lemma {:induction false} CallStack(p: Prog, s: Fresh, g: int, args: seq<int>)
    requires s.Fresh? && s.stack != [] && Calls(p, s, g, args).Fresh?
    ensures var s', n := Calls(p, s, g, args).stack, |s.stack|;
            SameFns(s.stack, s') && |s'| == n + 1 && p.Fn(g) && s'[n].fn == g
  {
  }

  lemma {:induction false} LoadStack(p: Prog, s: Fresh, d: int, v: Value)
    requires s.Fresh? && s.stack != [] && Loads(p, s, d, v).Fresh?
    ensures SameFns(s.stack, Loads(p, s, d, v).stack) && |Loads(p, s, d, v).stack| == |s.stack|
  {
  }

  lemma {:induction false} StoreStack(p: Prog, s: Fresh, a: Value, v: Value)
    requires s.Fresh? && s.stack != [] && Stores(p, s, a, v).Fresh?
    ensures SameFns(s.stack, Stores(p, s, a, v).stack) && |Stores(p, s, a, v).stack| == |s.stack|
  {
  }

  lemma {:induction false} ReturnStack(p: Prog, s: Fresh, v: Value)
    requires s.Fresh? && s.stack != [] && Returned(p, s, v).Fresh?
    ensures SameFns(s.stack, Returned(p, s, v).stack) && |Returned(p, s, v).stack| < |s.stack|
  {
  }

  lemma {:induction false} CallEdge(p: Prog, s: Fresh)
    requires Ready(p, s) && NextOp(p, s).Call? && p.Fn(NextOp(p, s).g)
    ensures Edge(p, Top(s).fn, NextOp(p, s).g)
  {
  }

  /** In every run without calls through pointers, no function outside frame-stack mode is entered
      while it is live. */
  lemma {:induction false} DirectRuns(p: Prog, s: Fresh, k: nat)
    requires Assigned(p) && (s.Fresh? ==> Direct(p, s.stack)) && OnlyDirect(p, s, k)
    ensures NeverReenters(p, s, k)
    decreases k
  {
    hide StepFresh, Assigned, Direct, Edge;
    if k > 0 && s.Fresh? {
      if Ready(p, s) && NextOp(p, s).Call? && p.Fn(NextOp(p, s).g) {
        CallEdge(p, s);
        DirectSafe(p, s, NextOp(p, s).g);
      }
      if StepFresh(p, s).Fresh? { StepDirect(p, s); }
      DirectRuns(p, StepFresh(p, s), k - 1);
    }
  }

  // ----- calls of any kind -----

  /** f calls through a pointer, and g has an entry address. */
  predicate ByPointer(p: Prog, f: int, g: int) {
    f in p.code && p.Fn(g) && (exists i :: 0 <= i < |p.code[f]| && p.code[f][i].CallPtr?) &&
    exists w :: w in p.entry && p.entry[w] == g
  }

  predicate Link(p: Prog, f: int, g: int) {
    Edge(p, f, g) || ByPointer(p, f, g)
  }

  predicate Round(p: Prog, f: int, q: seq<int>) {
    |q| > 1 && q[0] == f && q[|q| - 1] == f && forall i :: 0 < i < |q| ==> Link(p, q[i - 1], q[i])
  }

  /** Calls of any kind lead from f back to f. */
  ghost predicate OnCycle(p: Prog, f: int) {
    exists q :: Round(p, f, q)
  }

  /** Frame-stack mode covers the cycles of all calls. */
  ghost predicate Covered(p: Prog) {
    forall f :: p.Fn(f) && OnCycle(p, f) ==> p.stacked[f]
  }

  ghost predicate Linked(p: Prog, stack: seq<Act>) {
    forall i :: 0 < i < |stack| ==> Link(p, stack[i - 1].fn, stack[i].fn)
  }

  /** The number of no function, which a pointer that is no entry stands for, is not given out. */
  predicate Numbered(p: Prog) {
    -1 !in p.code
  }

  /** A call enters a function its caller is linked to. */
  lemma {:induction false} CallLink(p: Prog, s: Fresh)
    requires Numbered(p) && Ready(p, s) && IsCall(NextOp(p, s)) && p.Fn(Callee(p, Top(s), NextOp(p, s)))
    ensures Link(p, Top(s).fn, Callee(p, Top(s), NextOp(p, s)))
  {
    var t, op := Top(s), NextOp(p, s);
    assert p.code[t.fn][t.pc] == op;
  }

  lemma {:induction false} LinkSafe(p: Prog, s: Fresh, g: int)
    requires Covered(p) && s.Fresh? && s.stack != [] && Linked(p, s.stack) && p.Fn(g) && Link(p, Top(s).fn, g)
    ensures !Reentered(p, s, g)
  {
    forall i | 0 <= i < |s.stack| && s.stack[i].fn == g ensures OnCycle(p, g) { Closes(p, s.stack, i, g); }
  }

  lemma {:induction false} Closes(p: Prog, stack: seq<Act>, i: int, g: int)
    requires 0 <= i < |stack| && Linked(p, stack) && stack[i].fn == g && Link(p, stack[|stack| - 1].fn, g)
    ensures OnCycle(p, g)
  {
    var q := seq(|stack| - i, k requires 0 <= k < |stack| - i => stack[i + k].fn) + [g];
    hide Link;
    forall k | 0 < k < |q| ensures Link(p, q[k - 1], q[k]) {
      if k < |q| - 1 { assert Link(p, stack[i + k - 1].fn, stack[i + k].fn); }
    }
    assert Round(p, g, q);
  }

  lemma {:induction false} StepLinked(p: Prog, s: Fresh)
    requires Numbered(p) && s.Fresh? && Linked(p, s.stack) && StepFresh(p, s).Fresh?
    ensures Linked(p, StepFresh(p, s).stack)
  {
    var s', n := StepFresh(p, s), |s.stack|;
    StepStack(p, s);
    hide StepFresh, Link;
    forall i | 0 < i < |s'.stack| ensures Link(p, s'.stack[i - 1].fn, s'.stack[i].fn) {
      if i < n { assert Link(p, s.stack[i - 1].fn, s.stack[i].fn); } else { CallLink(p, s); }
    }
  }

  /** With every cycle covered, no run enters a live function outside frame-stack mode. */
  lemma {:induction false} CoveredRuns(p: Prog, s: Fresh, k: nat)
    requires Numbered(p) && Covered(p) && (s.Fresh? ==> Linked(p, s.stack))
    ensures NeverReenters(p, s, k)
    decreases k
  {
    hide StepFresh, Covered, Linked, Link, Reentered, Callee;
    if k > 0 && s.Fresh? {
      if Ready(p, s) && IsCall(NextOp(p, s)) && p.Fn(Callee(p, Top(s), NextOp(p, s))) {
        CallLink(p, s);
        LinkSafe(p, s, Callee(p, Top(s), NextOp(p, s)));
      }
      if StepFresh(p, s).Fresh? { StepLinked(p, s); }
      CoveredRuns(p, StepFresh(p, s), k - 1);
    }
  }

  /** From every stack of linked activations the next call is safe exactly when every cycle is
      covered. */
  lemma {:induction false} CoveredIff(p: Prog)
    requires Numbered(p) && forall f :: f in p.code ==> p.Fn(f)
    ensures Covered(p) <==> forall s: Fresh :: s.Fresh? && Linked(p, s.stack) ==> NeverReenters(p, s, 1)
  {
    if Covered(p) {
      forall s: Fresh | s.Fresh? && Linked(p, s.stack) ensures NeverReenters(p, s, 1) { CoveredRuns(p, s, 1); }
    } else {
      var f :| p.Fn(f) && OnCycle(p, f) && !p.stacked[f];
      var q :| Round(p, f, q);
      var s := Unsafe(p, f, q);
    }
  }

  /** The operation by which f calls g, and what its pointer must be. */
  lemma {:induction false} LinkOp(p: Prog, f: int, g: int) returns (pc: int, env: map<int, Value>)
    requires Link(p, f, g)
    ensures f in p.code && 0 <= pc < |p.code[f]| && IsCall(p.code[f][pc])
    ensures Callee(p, Act(f, pc, env, 0), p.code[f][pc]) == g
  {
    if Edge(p, f, g) {
      pc :| 0 <= pc < |p.code[f]| && p.code[f][pc].Call? && p.code[f][pc].g == g;
      env := map[];
    } else {
      pc :| 0 <= pc < |p.code[f]| && p.code[f][pc].CallPtr?;
      var w :| w in p.entry && p.entry[w] == g;
      env := map[p.code[f][pc].a := Value(w, -1)];
    }
  }

  /** The activations around a cycle, the last one about to enter the first again. */
  lemma {:induction false} Unsafe(p: Prog, f: int, q: seq<int>) returns (s: Fresh)
    requires Round(p, f, q) && p.Fn(f) && !p.stacked[f] && forall g :: g in p.code ==> p.Fn(g)
    ensures s.Fresh? && Linked(p, s.stack) && !NeverReenters(p, s, 1)
  {
    var n := |q| - 1;
    assert Link(p, q[n - 1], q[n]);
    var pc, env := LinkOp(p, q[n - 1], f);
    hide Link;
    var last := Act(q[n - 1], pc, env, 0);
    var stack := seq(n, i requires 0 <= i < n => if i < n - 1 then Act(q[i], 0, map[], 0) else last);
    s := Fresh(stack, map[], 1);
    forall i | 0 < i < n ensures Link(p, stack[i - 1].fn, stack[i].fn) { assert Link(p, q[i - 1], q[i]); }
    assert stack[0].fn == f;
    SameCallee(p, last, Act(q[n - 1], pc, env, 0), p.code[q[n - 1]][pc]);
    assert Top(s) == last && Ready(p, s) && NextOp(p, s) == p.code[q[n - 1]][pc];
    assert Reentered(p, s, f);
  }

  lemma SameCallee(p: Prog, t: Act, u: Act, op: Op)
    requires t.env == u.env
    ensures Callee(p, t, op) == Callee(p, u, op)
  {
  }

  // ----- calls through pointers -----

  /** A function that calls itself through a pointer in its first parameter. */
  function Pointing(): Prog {
    Prog(map[1 := [CallPtr(2, 1, [1]), Ret(2)]], map[1 := 10], map[1 := 3], map[1 := false],
         map[(1, 0) := 1000], map[1000 := (1, 0)], map[50 := 1], 100, 200, {})
  }

  /** It is on no cycle of direct calls, so it gets one static frame, and is entered while live. */
  lemma {:induction false} PointerReenters(v: Value)
    requires v.w == 50
    ensures var p, s := Pointing(), Fresh([Act(1, 0, map[1 := v], 0)], map[], 1);
            p.Ok() && Assigned(p) && Ready(p, s) && Callee(p, Top(s), NextOp(p, s)) == 1 && p.Fn(1)
                && Reentered(p, s, 1)
  {
    var p, s := Pointing(), Fresh([Act(1, 0, map[1 := v], 0)], map[], 1);
    assert p.code[1][0].CallPtr? && p.code[1][1].Ret?;
    forall f, pc | f in p.code && 0 <= pc < |p.code[f]| ensures p.OpOk(f, pc) { assert pc == 0 || pc == 1; }
    assert forall g :: !Edge(p, 1, g);
    forall q ensures !Leads(p, 1, 1, q) {
      if Leads(p, 1, 1, q) {
        FirstEdge(p, 1, 1, q);
        assert false;
      }
    }
    assert s.stack[0].fn == 1;
  }

  /** f calls g through a pointer, and g calls f by name. */
  function Bouncing(): Prog {
    Prog(map[1 := [CallPtr(2, 1, [1]), Ret(2)], 2 := [Call(2, 1, [1]), Ret(2)]], map[1 := 10, 2 := 20],
         map[1 := 3, 2 := 3], map[1 := false, 2 := false], map[(1, 0) := 1000, (2, 0) := 2000],
         map[1000 := (1, 0), 2000 := (2, 0)], map[50 := 2], 100, 200, {})
  }

  /** Neither is on a cycle of direct calls, and a direct call enters f while it is live. */
  lemma {:induction false} DirectReenters(v: Value)
    requires v.w == 50
    ensures var p, s := Bouncing(), Fresh([Act(1, 0, map[1 := v], 0)], map[], 1);
            var s' := StepFresh(p, s);
            p.Ok() && Assigned(p) && Ready(p, s') && NextOp(p, s') == Call(2, 1, [1]) && p.Fn(1) && Reentered(p, s', 1)
  {
    var p, s := Bouncing(), Fresh([Act(1, 0, map[1 := v], 0)], map[], 1);
    assert p.code[1][0].CallPtr? && p.code[1][1].Ret? && p.code[2][0].Call? && p.code[2][1].Ret?;
    BouncingOk();
    BouncingAssigned();
    hide Assigned;
    assert StepFresh(p, s).stack[0].fn == 1;
  }

  lemma {:induction false} BouncingOk()
    ensures Bouncing().Ok()
  {
    var p := Bouncing();
    assert forall f :: f in p.code ==> p.Fn(f);
    forall f, pc | f in p.code && 0 <= pc < |p.code[f]| ensures p.OpOk(f, pc) { BouncingOp(f, pc); }
    forall f | f in p.code ensures BouncingFrame(p, f) { assert f == 1 || f == 2; }
  }

  /** f's frame is words 10f to 10f + 2. */
  predicate BouncingFrame(p: Prog, f: int) {
    p.Fn(f) && p.frame[f] == 10 * f && p.size[f] == 3 && 1 <= f <= 2
  }

  lemma {:induction false} BouncingOp(f: int, pc: int)
    requires f in Bouncing().code && 0 <= pc < |Bouncing().code[f]|
    ensures Bouncing().Fn(f) && Bouncing().OpOk(f, pc)
  {
    var p := Bouncing();
    assert p.code[1][0].CallPtr? && p.code[1][1].Ret? && p.code[2][0].Call? && p.code[2][1].Ret?;
    assert pc == 0 || pc == 1;
  }

  lemma {:induction false} BouncingAssigned()
    ensures Assigned(Bouncing())
  {
    var p := Bouncing();
    assert p.code[1][0].CallPtr? && p.code[1][1].Ret? && p.code[2][0] == Call(2, 1, [1]) && p.code[2][1].Ret?;
    assert forall g :: !Edge(p, 1, g);
    assert forall g :: Edge(p, 2, g) ==> g == 1;
    hide Edge;
    forall f, q | f == 1 || f == 2 ensures !Leads(p, f, f, q) {
      if Leads(p, f, f, q) {
        TwoEdges(p, f, q);
        assert false;
      }
    }
  }
}
