/** Recursion on one static frame per function with a software frame stack (host/dmacc/func.go)
    computes what recursion with a fresh frame per activation computes. */
module Frames {
  import opened Words

  // ----- programs -----

  /** Values live in numbered frame words; word 0 of a frame holds the return address. Some words
      are local variables whose address is taken. An Eval that computes an address offsets the one
      in its operand base. */
  datatype Op =
    | Eval(d: int, srcs: seq<int>, f: seq<Word> -> Word, base: int)
    | Addr(d: int, o: int)
    | Load(d: int, a: int)
    | Store(a: int, s: int)
    | Br(s: int, yes: int, no: int)
    | Call(d: int, g: int, args: seq<int>)
    | CallPtr(d: int, a: int, args: seq<int>)
    | Ret(s: int)

  predicate IsCall(op: Op) {
    op.Call? || op.CallPtr?
  }

  /** Code, static frame and frame size of every function, whether it is compiled in frame-stack
      mode, the return address of every call site, entry addresses, and the frame stack's bounds.
      All addresses are word indices. */
  datatype Prog = Prog(code: map<int, seq<Op>>, frame: map<int, int>, size: map<int, nat>, stacked: map<int, bool>,
                       site: map<(int, int), Word>, back: map<Word, (int, int)>, entry: map<Word, int>,
                       base: int, limit: int, heap: set<int>) {
    predicate Fn(f: int) {
      f in code && f in frame && f in size && f in stacked
    }

    /** The words a push takes: the frame and its two-word trailer. */
    function Rec(f: int): nat
      requires Fn(f)
    {
      if stacked[f] then size[f] + 2 else 0
    }

    predicate InFrame(f: int, a: int)
      requires Fn(f)
    {
      frame[f] <= a < frame[f] + size[f]
    }

    /** Frames, stack and program data do not overlap, locals fit their frame, and every call
        site can be found again from its return address. */
    ghost predicate Ok() {
      && base <= limit
      && (forall f :: f in code ==> Fn(f) && size[f] >= 1 && 0 <= frame[f] && frame[f] + size[f] < M32)
      && (forall f, g, a :: f in code && g in code && f != g && InFrame(f, a) ==> !InFrame(g, a))
      && (forall f, a :: f in code && InFrame(f, a) ==> !(base <= a < limit) && a !in heap)
      && (forall a :: a in heap ==> !(base <= a < limit))
      && (forall f, pc :: f in code && 0 <= pc < |code[f]| ==> OpOk(f, pc))
    }

    ghost predicate SiteOk(f: int, pc: int, d: int)
      requires Fn(f)
    {
      0 < d < size[f] && (f, pc) in site && site[(f, pc)] in back && back[site[(f, pc)]] == (f, pc)
    }

    ghost predicate OpOk(f: int, pc: int)
      requires f in code && Fn(f) && 0 <= pc < |code[f]|
    {
      match code[f][pc]
      case Eval(d, _, _, _) => 0 < d < size[f]
      case Addr(d, o) => 0 < d < size[f] && 0 < o < size[f]
      case Load(d, _) => 0 < d < size[f]
      case Call(d, g, args) => SiteOk(f, pc, d) && g in code && |args| <= 4
      case CallPtr(d, _, args) => SiteOk(f, pc, d) && |args| <= 4
      case _ => true
    }
  }

  // ----- a fresh frame per activation -----

  /** A word, and the activation whose frame it points into, or -1. */
  datatype Value = Value(w: Word, own: int)

  /** An activation: its function, where it stands (at the call, while suspended), the words it has
      written and its number. */
  datatype Act = Act(fn: int, pc: int, env: map<int, Value>, id: nat)

  datatype Fresh = Fresh(stack: seq<Act>, heap: map<int, Value>, next: nat) | Result(v: Value, final: map<int,
      Value>) | Stuck

  predicate Defined(env: map<int, Value>, srcs: seq<int>) {
    forall i :: 0 <= i < |srcs| ==> srcs[i] in env
  }

  function Values(env: map<int, Value>, srcs: seq<int>): (vs: seq<Value>)
    requires Defined(env, srcs)
    ensures |vs| == |srcs| && forall i :: 0 <= i < |srcs| ==> vs[i] == env[srcs[i]]
  {
    seq(|srcs|, i requires 0 <= i < |srcs| => env[srcs[i]])
  }

  function Bare(vs: seq<Value>): (ws: seq<Word>)
    ensures |ws| == |vs| && forall i :: 0 <= i < |vs| ==> ws[i] == vs[i].w
  {
    seq(|vs|, i requires 0 <= i < |vs| => vs[i].w)
  }

  /** A new activation knows its parameters only, in words 1, 2, ... */
  function Params(vs: seq<Value>, k: nat): (e: map<int, Value>)
    requires k <= |vs|
    ensures forall i :: i in e <==> 1 <= i <= k
    ensures forall i :: 1 <= i <= k ==> e[i] == vs[i - 1]
  {
    if k == 0 then map[] else Params(vs, k - 1)[k := vs[k - 1]]
  }

  function Top(s: Fresh): Act
    requires s.Fresh? && s.stack != []
  {
    s.stack[|s.stack| - 1]
  }

  function WithTop(s: Fresh, a: Act): Fresh
    requires s.Fresh? && s.stack != []
  {
    s.(stack := s.stack[|s.stack| - 1 := a])
  }

  /** The top activation's word d set, and control moved on. */
  function Sets(s: Fresh, d: int, v: Value): Fresh
    requires s.Fresh? && s.stack != []
  {
    var t := Top(s);
    WithTop(s, t.(pc := t.pc + 1, env := t.env[d := v]))
  }

  /** The live activation with a number, among the first n. */
  function Owner(stack: seq<Act>, id: int, n: nat): (i: int)
    requires n <= |stack|
    ensures -1 <= i < n && (i >= 0 ==> stack[i].id == id)
  {
    if n == 0 then -1 else if stack[n - 1].id == id then n - 1 else Owner(stack, id, n - 1)
  }

  /** What an address names: program data, or a frame word of a live activation. */
  datatype Place = Data(x: int) | Local(i: nat, d: int) | Nowhere

  function Where(p: Prog, s: Fresh, v: Value): (r: Place)
    requires s.Fresh?
    ensures r.Local? ==> r.i < |s.stack| && p.Fn(s.stack[r.i].fn)
    ensures r.Local? ==> 0 < r.d < p.size[s.stack[r.i].fn] && v.w == p.frame[s.stack[r.i].fn] + r.d
    ensures r.Data? ==> r.x in p.heap && r.x == v.w
  {
    if v.own < 0 then (if v.w in p.heap then Data(v.w) else Nowhere)
    else
      var i := Owner(s.stack, v.own, |s.stack|);
      if i < 0 || !p.Fn(s.stack[i].fn) then Nowhere
      else
        var d := v.w - p.frame[s.stack[i].fn];
        if 0 < d < p.size[s.stack[i].fn] then Local(i, d) else Nowhere
  }

  /** A function outside frame-stack mode is never entered while it is live. */
  predicate Reentered(p: Prog, s: Fresh, g: int)
    requires s.Fresh? && p.Fn(g)
  {
    !p.stacked[g] && exists i :: 0 <= i < |s.stack| && s.stack[i].fn == g
  }

  /** The function a call enters, or -1. */
  function Callee(p: Prog, t: Act, op: Op): int {
    match op
    case Call(_, g, _) => g
    case CallPtr(_, a, _) => if a in t.env && t.env[a].w in p.entry then p.entry[t.env[a].w] else -1
    case _ => -1
  }

  function Calls(p: Prog, s: Fresh, g: int, args: seq<int>): Fresh
    requires s.Fresh? && s.stack != []
  {
    var t := Top(s);
    if !Defined(t.env, args) || !p.Fn(g) || |args| >= p.size[g] || Reentered(p, s, g) then Stuck
    else s.(stack := s.stack + [Act(g, 0, Params(Values(t.env, args), |args|), s.next)], next := s.next + 1)
  }

  /** A frame word of activation i set. */
  function SetLocal(s: Fresh, i: nat, d: int, v: Value): Fresh
    requires s.Fresh? && i < |s.stack|
  {
    s.(stack := s.stack[i := s.stack[i].(env := s.stack[i].env[d := v])])
  }

  function Moved(s: Fresh): Fresh
    requires s.Fresh? && s.stack != []
  {
    WithTop(s, Top(s).(pc := Top(s).pc + 1))
  }

  function Loads(p: Prog, s: Fresh, d: int, v: Value): Fresh
    requires s.Fresh? && s.stack != []
  {
    match Where(p, s, v)
    case Data(x) => if x in s.heap then Sets(s, d, s.heap[x]) else Stuck
    case Local(i, o) => if o in s.stack[i].env then Sets(s, d, s.stack[i].env[o]) else Stuck
    case Nowhere => Stuck
  }

  function Stores(p: Prog, s: Fresh, v: Value, x: Value): Fresh
    requires s.Fresh? && s.stack != []
  {
    match Where(p, s, v)
    case Data(y) => Moved(s.(heap := s.heap[y := x]))
    case Local(i, o) => Moved(SetLocal(s, i, o, x))
    case Nowhere => Stuck
  }

  function StepFresh(p: Prog, s: Fresh): Fresh
    requires s.Fresh?
  {
    if s.stack == [] || Top(s).fn !in p.code || !p.Fn(Top(s).fn) || !(0 <= Top(s).pc < |p.code[Top(s).fn]|) then Stuck
    else
      var t := Top(s);
      match p.code[t.fn][t.pc]
      case Eval(d, srcs, f, base) =>
        if !Defined(t.env, srcs) then Stuck
        else Sets(s, d, Value(f(Bare(Values(t.env, srcs))), if 0 <= base < |srcs| then t.env[srcs[base]].own else -1))
      case Addr(d, o) => Sets(s, d, Value(Wrap(p.frame[t.fn] + o), t.id))
      case Load(d, a) => if a !in t.env then Stuck else Loads(p, s, d, t.env[a])
      case Store(a, x) => if a !in t.env || x !in t.env then Stuck else Stores(p, s, t.env[a], t.env[x])
      case Br(x, yes, no) => if x !in t.env then Stuck else WithTop(s, t.(pc := if t.env[x].w != 0 then yes else no))
      case Call(d, g, args) => Calls(p, s, g, args)
      case CallPtr(d, a, args) =>
        if a !in t.env || t.env[a].w !in p.entry then Stuck else Calls(p, s, p.entry[t.env[a].w], args)
      case Ret(x) => if x !in t.env then Stuck else Returned(p, s, t.env[x])
  }

  /** The caller resumes behind its call with the result in its destination word. */
  function Returned(p: Prog, s: Fresh, v: Value): Fresh
    requires s.Fresh? && s.stack != []
  {
    var n := |s.stack| - 1;
    if n == 0 then Result(v, s.heap)
    else
      var c := s.stack[n - 1];
      if c.fn !in p.code || !(0 <= c.pc < |p.code[c.fn]|) || !IsCall(p.code[c.fn][c.pc]) then Stuck
      else Sets(s.(stack := s.stack[..n]), p.code[c.fn][c.pc].d, v)
  }

  // ----- one static frame per function -----

  datatype Static = Static(fn: int, pc: int, mem: map<int, Word>, fsp: int) | Finished(v: Word, final: map<int, Word>,
      sp: int) | Sink | Lost

  function Peek(mem: map<int, Word>, a: int): Word {
    if a in mem then mem[a] else 0
  }

  /** A burst of n words, upward. */
  function Copy(mem: map<int, Word>, from: int, to: int, n: nat): map<int, Word>
    decreases n
  {
    if n == 0 then mem else Copy(mem[to := Peek(mem, from)], from + 1, to + 1, n - 1)
  }

  function Fetch(p: Prog, f: int, mem: map<int, Word>, srcs: seq<int>): seq<Word>
    requires p.Fn(f)
  {
    seq(|srcs|, i requires 0 <= i < |srcs| => Peek(mem, p.frame[f] + srcs[i]))
  }

  /** Stores the linkage and the parameters, still in their machine registers. */
  function Arrive(mem: map<int, Word>, frame: int, lr: Word, args: seq<Word>, k: nat): map<int, Word>
    requires k <= |args|
    decreases k
  {
    if k == 0 then mem[frame := lr] else Arrive(mem, frame, lr, args, k - 1)[frame + k := args[k - 1]]
  }

  /** The prologue: save the live frame above fsp with its trailer, move fsp, then fill in the
      fresh activation; past the stack's end, divert to the sink. */
  function Enter(p: Prog, mem: map<int, Word>, fsp: int, g: int, lr: Word, args: seq<Word>): Static
    requires p.Fn(g)
  {
    if !p.stacked[g] then Static(g, 0, Arrive(mem, p.frame[g], lr, args, |args|), fsp)
    else if fsp + p.Rec(g) > p.limit then Sink
    else
      var n := p.size[g];
      var m := Copy(mem, p.frame[g], fsp, n)[fsp + n := Wrap(p.frame[g])][fsp + n + 1 := Wrap(n)];
      Static(g, 0, Arrive(m, p.frame[g], lr, args, |args|), fsp + n + 2)
  }

  /** The memory after the epilogue has restored the displaced words. */
  function Popped(p: Prog, mem: map<int, Word>, fsp: int, f: int): map<int, Word>
    requires p.Fn(f)
  {
    if p.stacked[f] then Copy(mem, fsp, p.frame[f], p.size[f]) else mem
  }

  /** The epilogue: the result and the return address leave the frame before it is restored. */
  function Leave(p: Prog, mem: map<int, Word>, fsp: int, f: int, v: Word): Static
    requires p.Fn(f)
  {
    var lr := Peek(mem, p.frame[f]);
    var fsp' := fsp - p.Rec(f);
    Resume(p, Popped(p, mem, fsp', f), fsp', lr, v)
  }

  /** Control returns to the call site lr names, which moves r0 into its destination. */
  function Resume(p: Prog, mem: map<int, Word>, fsp: int, lr: Word, v: Word): Static {
    if lr !in p.back then Finished(v, mem, fsp)
    else
      var (f, pc) := p.back[lr];
      if f !in p.code || !p.Fn(f) || !(0 <= pc < |p.code[f]|) || !IsCall(p.code[f][pc]) then Lost
      else Static(f, pc + 1, mem[p.frame[f] + p.code[f][pc].d := v], fsp)
  }

  /** A call: linkage and arguments in the machine's registers, then the prologue. */
  function Enters(p: Prog, s: Static, g: int, args: seq<int>): Static
    requires s.Static? && p.Fn(s.fn)
  {
    if !p.Fn(g) || (s.fn, s.pc) !in p.site then Lost
    else Enter(p, s.mem, s.fsp, g, p.site[(s.fn, s.pc)], Fetch(p, s.fn, s.mem, args))
  }

  function StepStatic(p: Prog, s: Static): Static
    requires s.Static?
  {
    if s.fn !in p.code || !p.Fn(s.fn) || !(0 <= s.pc < |p.code[s.fn]|) then Lost
    else
      var fr := p.frame[s.fn];
      match p.code[s.fn][s.pc]
      case Eval(d, srcs, f, _) => s.(pc := s.pc + 1, mem := s.mem[fr + d := f(Fetch(p, s.fn, s.mem, srcs))])
      case Addr(d, o) => s.(pc := s.pc + 1, mem := s.mem[fr + d := Wrap(fr + o)])
      case Load(d, a) => s.(pc := s.pc + 1, mem := s.mem[fr + d := Peek(s.mem, Peek(s.mem, fr + a))])
      case Store(a, x) => s.(pc := s.pc + 1, mem := s.mem[Peek(s.mem, fr + a) := Peek(s.mem, fr + x)])
      case Br(x, yes, no) => s.(pc := if Peek(s.mem, fr + x) != 0 then yes else no)
      case Call(d, g, args) => Enters(p, s, g, args)
      case CallPtr(d, a, args) =>
          var w := Peek(s.mem, fr + a); Enters(p, s, if w in p.entry then p.entry[w] else -1, args)
      case Ret(x) => Leave(p, s.mem, s.fsp, s.fn, Peek(s.mem, fr + x))
  }

  // ----- where each activation's words are -----

  predicate Known(p: Prog, stack: seq<Act>) {
    forall i :: 0 <= i < |stack| ==> p.Fn(stack[i].fn)
  }

  /** fsp when activation i was entered. */
  function Sp(p: Prog, stack: seq<Act>, i: nat): int
    requires Known(p, stack) && i <= |stack|
  {
    if i == 0 then p.base else Sp(p, stack, i - 1) + p.Rec(stack[i - 1].fn)
  }

  /** The next activation of the same function at or after j, or the stack's height. */
  function Later(stack: seq<Act>, i: nat, j: nat): (k: nat)
    requires i < |stack| && j <= |stack|
    ensures j <= k <= |stack| && (k < |stack| ==> stack[k].fn == stack[i].fn)
    ensures forall l :: j <= l < k ==> stack[l].fn != stack[i].fn
    decreases |stack| - j
  {
    if j == |stack| || stack[j].fn == stack[i].fn then j else Later(stack, i, j + 1)
  }

  /** The innermost activation of a function lives in its static frame; an outer one lives in the
      record the next activation pushed. */
  function Home(p: Prog, stack: seq<Act>, i: nat): int
    requires Known(p, stack) && i < |stack|
  {
    var k := Later(stack, i, i + 1);
    if k == |stack| then p.frame[stack[i].fn] else Sp(p, stack, k)
  }

  /** The return address an activation was entered with. */
  function Link(p: Prog, exit: Word, stack: seq<Act>, i: nat): Word
    requires i < |stack|
  {
    if i == 0 then exit
    else
      var c := (stack[i - 1].fn, stack[i - 1].pc);
      if c in p.site then p.site[c] else exit
  }

  /** Word d of the frame at h. */
  function At(mem: map<int, Word>, h: int, d: int): Word {
    Peek(mem, h + d)
  }

  ghost predicate SameWords(mem: map<int, Word>, h: int, mem': map<int, Word>, h': int, n: nat) {
    forall d :: 0 <= d < n ==> At(mem', h', d) == At(mem, h, d)
  }

  ghost predicate Holds(mem: map<int, Word>, h: int, env: map<int, Value>, n: nat) {
    forall d :: d in env ==> 0 < d < n && At(mem, h, d) == env[d].w
  }

  /** Activation i's words and return address are where they should be. */
  ghost predicate Kept(p: Prog, exit: Word, mem: map<int, Word>, stack: seq<Act>, i: nat)
    requires Known(p, stack) && i < |stack|
  {
    var h := Home(p, stack, i);
    Holds(mem, h, stack[i].env, p.size[stack[i].fn]) && At(mem, h, 0) == Link(p, exit, stack, i)
  }

  /** A suspended activation stands at a call; functions outside frame-stack mode are live once. */
  ghost predicate Shaped(p: Prog, stack: seq<Act>)
    requires Known(p, stack)
  {
    && (forall i :: 0 <= i < |stack| ==> stack[i].fn in p.code)
    && (forall i :: 0 <= i < |stack| - 1 ==>
                      0 <= stack[i].pc < |p.code[stack[i].fn]| && IsCall(p.code[stack[i].fn][stack[i].pc]))
    && (forall i, j :: 0 <= i < j < |stack| && stack[i].fn == stack[j].fn ==> p.stacked[stack[i].fn])
  }

  /** The static machine stands for the fresh one. */
  ghost predicate Stands(p: Prog, exit: Word, a: Fresh, b: Static) {
    && p.Ok() && exit !in p.back && a.Fresh? && b.Static? && a.stack != [] && Known(p, a.stack) && Shaped(p, a.stack)
    && b.fn == Top(a).fn && b.pc == Top(a).pc && b.fsp == Sp(p, a.stack, |a.stack|) <= p.limit
    && AllKept(p, exit, b.mem, a.stack)
    && DataKept(p, b.mem, a.heap)
  }

  ghost predicate DataKept(p: Prog, mem: map<int, Word>, heap: map<int, Value>) {
    forall x :: x in heap && x in p.heap ==> Peek(mem, x) == heap[x].w
  }

  // ----- copying -----

  lemma {:induction false} CopyMeans(mem: map<int, Word>, from: int, to: int, n: nat)
    requires from + n <= to || to + n <= from
    ensures forall a :: to <= a < to + n ==> Peek(Copy(mem, from, to, n), a) == Peek(mem, a - to + from)
    ensures forall a :: !(to <= a < to + n) ==> Peek(Copy(mem, from, to, n), a) == Peek(mem, a)
    decreases n
  {
    if n > 0 {
      var m := mem[to := Peek(mem, from)];
      CopyMeans(m, from + 1, to + 1, n - 1);
      forall a | to <= a < to + n ensures Peek(Copy(mem, from, to, n), a) == Peek(mem, a - to + from) {
        assert a > to ==> Peek(Copy(m, from + 1, to + 1, n - 1), a) == Peek(m, a - (to + 1) + (from + 1));
      }
    }
  }

  lemma {:induction false} ArriveMeans(mem: map<int, Word>, frame: int, lr: Word, args: seq<Word>, k: nat)
    requires k <= |args|
    ensures Peek(Arrive(mem, frame, lr, args, k), frame) == lr
    ensures forall a :: frame < a <= frame + k ==> Peek(Arrive(mem, frame, lr, args, k), a) == args[a - frame - 1]
    ensures forall a :: !(frame <= a <= frame + k) ==> Peek(Arrive(mem, frame, lr, args, k), a) == Peek(mem, a)
    decreases k
  {
    if k > 0 {
      ArriveMeans(mem, frame, lr, args, k - 1);
      var m := Arrive(mem, frame, lr, args, k - 1);
      var m' := Arrive(mem, frame, lr, args, k);
      forall a | frame < a <= frame + k ensures Peek(m', a) == args[a - frame - 1] {
        assert a < frame + k ==> Peek(m, a) == args[a - frame - 1];
      }
    }
  }

  // ----- regions -----

  lemma {:induction false} SpGrows(p: Prog, stack: seq<Act>, i: nat, j: nat)
    requires Known(p, stack) && i <= j <= |stack|
    ensures p.base <= Sp(p, stack, i) <= Sp(p, stack, j)
    ensures i < j ==> Sp(p, stack, i) + p.Rec(stack[i].fn) <= Sp(p, stack, j)
    decreases j
  {
    if i < j { SpGrows(p, stack, i, j - 1); } else if i > 0 { SpGrows(p, stack, i - 1, i - 1); }
  }

  /** An activation's words are in its function's frame, or in a record below fsp. */
  lemma {:induction false} HomeRange(p: Prog, stack: seq<Act>, i: nat)
    requires Known(p, stack) && Shaped(p, stack) && i < |stack|
    ensures var k, h := Later(stack, i, i + 1), Home(p, stack, i);
            if k == |stack| then h == p.frame[stack[i].fn]
            else p.base <= h && h + p.size[stack[i].fn] + 2 <= Sp(p, stack, k + 1) <= Sp(p, stack, |stack|)
  {
    var k := Later(stack, i, i + 1);
    if k < |stack| { SpGrows(p, stack, k, k + 1); SpGrows(p, stack, k + 1, |stack|); SpGrows(p, stack, 0, k); }
  }

  /** Two activations' words never overlap. */
  lemma {:induction false} Apart(p: Prog, stack: seq<Act>, i: nat, j: nat, a: int)
    requires p.Ok() && Known(p, stack) && Shaped(p, stack) && i < |stack| && j < |stack| && i != j
    requires Sp(p, stack, |stack|) <= p.limit
    requires Home(p, stack, i) <= a < Home(p, stack, i) + p.size[stack[i].fn]
    ensures !(Home(p, stack, j) <= a < Home(p, stack, j) + p.size[stack[j].fn])
  {
    HomeRange(p, stack, i); HomeRange(p, stack, j);
    var k, l := Later(stack, i, i + 1), Later(stack, j, j + 1);
    if k == |stack| {
      assert p.InFrame(stack[i].fn, a);
      if l == |stack| { assert stack[i].fn != stack[j].fn; }
    } else if l == |stack| {
      assert p.InFrame(stack[j].fn, a) ==> !(p.base <= a < p.limit);
    } else {
      assert k != l;
      if k < l { SpGrows(p, stack, k + 1, l); } else { SpGrows(p, stack, l + 1, k); }
    }
  }

  // ----- steps inside an activation -----

  ghost predicate SameFns(stack: seq<Act>, stack': seq<Act>) {
    |stack| == |stack'| && forall i :: 0 <= i < |stack| ==> stack'[i].fn == stack[i].fn
  }

  lemma {:induction false} SpByFns(p: Prog, stack: seq<Act>, stack': seq<Act>, i: nat)
    requires Known(p, stack) && Known(p, stack') && SameFns(stack, stack') && i <= |stack|
    ensures Sp(p, stack', i) == Sp(p, stack, i)
  {
    if i > 0 { SpByFns(p, stack, stack', i - 1); }
  }

  lemma {:induction false} LaterByFns(stack: seq<Act>, stack': seq<Act>, i: nat, j: nat)
    requires SameFns(stack, stack') && i < |stack| && j <= |stack|
    ensures Later(stack', i, j) == Later(stack, i, j)
    decreases |stack| - j
  {
    if j < |stack| && stack[j].fn != stack[i].fn { LaterByFns(stack, stack', i, j + 1); }
  }

  lemma {:induction false} HomeByFns(p: Prog, stack: seq<Act>, stack': seq<Act>, i: nat)
    requires Known(p, stack) && Known(p, stack') && SameFns(stack, stack') && i < |stack|
    ensures Home(p, stack', i) == Home(p, stack, i)
  {
    LaterByFns(stack, stack', i, i + 1);
    SpByFns(p, stack, stack', Later(stack, i, i + 1));
  }

  /** An activation keeps its words when the memory around its home is kept. */
  lemma {:induction false} KeptSame(p: Prog, exit: Word, mem: map<int, Word>, mem': map<int, Word>, stack: seq<Act>,
                                    stack': seq<Act>, i: nat)
    requires p.Ok() && Known(p, stack) && Known(p, stack') && i < |stack| && i < |stack'| && stack[i].fn in p.code
    requires Kept(p, exit, mem, stack, i) && stack'[i].fn == stack[i].fn && stack'[i].env == stack[i].env
    requires Link(p, exit, stack', i) == Link(p, exit, stack, i)
    requires SameWords(mem, Home(p, stack, i), mem', Home(p, stack', i), p.size[stack[i].fn])
    ensures Kept(p, exit, mem', stack', i)
  {
    hide Home, Link, At;
    assert At(mem', Home(p, stack', i), 0) == At(mem, Home(p, stack, i), 0);
  }

  ghost predicate AllKept(p: Prog, exit: Word, mem: map<int, Word>, stack: seq<Act>)
    requires Known(p, stack)
  {
    forall i :: 0 <= i < |stack| ==> Kept(p, exit, mem, stack, i)
  }

  /** The innermost activation of its function. */
  predicate Inner(stack: seq<Act>, i: nat)
    requires i < |stack|
  {
    Later(stack, i, i + 1) == |stack|
  }

  /** Writing one word of an activation leaves the others' words alone. */
  lemma {:induction false} OthersKept(p: Prog, exit: Word, mem: map<int, Word>, mem': map<int, Word>, stack: seq<Act>,
                                      stack': seq<Act>, q: nat, d: int, i: nat)
    requires p.Ok() && Known(p, stack) && Shaped(p, stack) && Known(p, stack') && SameFns(stack, stack') && i < |stack|
    requires q < |stack| && i != q
    requires Sp(p, stack, |stack|) <= p.limit && stack'[i].env == stack[i].env
    requires Link(p, exit, stack', i) == Link(p, exit, stack, i)
    requires 0 <= d < p.size[stack[q].fn] && forall x :: x != Home(p, stack, q) + d ==> Peek(mem', x) == Peek(mem, x)
    requires Kept(p, exit, mem, stack, i)
    ensures Kept(p, exit, mem', stack', i)
  {
    var w := Home(p, stack, q) + d;
    HomeByFns(p, stack, stack', i);
    forall k | 0 <= k < p.size[stack[i].fn] ensures At(mem', Home(p, stack', i), k) == At(mem, Home(p, stack, i), k) {
      if Home(p, stack, i) + k == w { Apart(p, stack, i, q, w); }
    }
    KeptSame(p, exit, mem, mem', stack, stack', i);
  }

  lemma LinkByPcs(p: Prog, exit: Word, stack: seq<Act>, stack': seq<Act>, i: nat)
    requires i < |stack| == |stack'|
    requires i > 0 ==> stack'[i - 1].fn == stack[i - 1].fn && stack'[i - 1].pc == stack[i - 1].pc
    ensures Link(p, exit, stack', i) == Link(p, exit, stack, i)
  {
  }

  /** A word of an activation is set, in its home. */
  lemma {:induction false} HomeSteps(p: Prog, exit: Word, a: Fresh, b: Static, q: nat, d: int, v: Value)
    requires Stands(p, exit, a, b) && q < |a.stack| && 0 < d < p.size[a.stack[q].fn]
    ensures Stands(p, exit, SetLocal(a, q, d, v), b.(mem := b.mem[Home(p, a.stack, q) + d := v.w]))
  {
    var n, f := |a.stack|, a.stack[q].fn;
    var s', mem' := SetLocal(a, q, d, v).stack, b.mem[Home(p, a.stack, q) + d := v.w];
    assert Known(p, s') && Shaped(p, s') && SameFns(a.stack, s');
    SpByFns(p, a.stack, s', n);
    CellsKept(p, exit, b.mem, a.stack, s', q, d, v);
    HomeNoData(p, a.stack, q, d);
    hide AllKept, Shaped, Sp, Later, Home, Prog.Ok;
  }

  lemma {:induction false} HomeNoData(p: Prog, stack: seq<Act>, q: nat, d: int)
    requires p.Ok() && Known(p, stack) && Shaped(p, stack) && q < |stack| && Sp(p, stack, |stack|) <= p.limit
    requires 0 < d < p.size[stack[q].fn]
    ensures Home(p, stack, q) + d !in p.heap
  {
    var f := stack[q].fn;
    HomeRange(p, stack, q);
    assert Home(p, stack, q) == p.frame[f] ==> p.InFrame(f, p.frame[f] + d);
  }

  /** A frame word of an innermost activation is set, in its function's frame. */
  lemma {:induction false} CellSteps(p: Prog, exit: Word, a: Fresh, b: Static, q: nat, d: int, v: Value)
    requires Stands(p, exit, a, b) && q < |a.stack| && Inner(a.stack, q) && 0 < d < p.size[a.stack[q].fn]
    ensures Stands(p, exit, SetLocal(a, q, d, v), b.(mem := b.mem[p.frame[a.stack[q].fn] + d := v.w]))
  {
    assert Home(p, a.stack, q) == p.frame[a.stack[q].fn];
    hide Stands, Home;
    HomeSteps(p, exit, a, b, q, d, v);
  }

  lemma {:induction false} CellsKept(p: Prog, exit: Word, mem: map<int, Word>, stack: seq<Act>, stack': seq<Act>,
                                     q: nat, d: int, v: Value)
    requires p.Ok() && Known(p, stack) && Shaped(p, stack) && Known(p, stack') && q < |stack|
    requires Sp(p, stack, |stack|) <= p.limit && 0 < d < p.size[stack[q].fn]
    requires stack' == stack[q := stack[q].(env := stack[q].env[d := v])] && AllKept(p, exit, mem, stack)
    ensures AllKept(p, exit, mem[Home(p, stack, q) + d := v.w], stack')
  {
    var mem' := mem[Home(p, stack, q) + d := v.w];
    assert SameFns(stack, stack');
    forall i | 0 <= i < |stack| ensures Kept(p, exit, mem', stack', i) {
      hide Prog.Ok, Shaped, Later, Sp, Kept, Home;
      assert Kept(p, exit, mem, stack, i);
      LinkByPcs(p, exit, stack, stack', i);
      hide Link;
      if i != q {
        OthersKept(p, exit, mem, mem', stack, stack', q, d, i);
      } else {
        CellKept(p, exit, mem, stack, stack', q, d, v);
      }
    }
  }

  lemma {:induction false} CellKept(p: Prog, exit: Word, mem: map<int, Word>, stack: seq<Act>, stack': seq<Act>, q: nat,
                                    d: int, v: Value)
    requires Known(p, stack) && Known(p, stack') && SameFns(stack, stack') && q < |stack|
    requires 0 < d < p.size[stack[q].fn] && stack'[q].env == stack[q].env[d := v]
    requires Link(p, exit, stack', q) == Link(p, exit, stack, q)
    requires Kept(p, exit, mem, stack, q)
    ensures Kept(p, exit, mem[Home(p, stack, q) + d := v.w], stack', q)
  {
    HomeByFns(p, stack, stack', q);
    hide Home;
  }

  /** Only control moves. */
  lemma {:induction false} TopBranches(p: Prog, exit: Word, a: Fresh, b: Static, pc': int)
    requires Stands(p, exit, a, b)
    ensures Stands(p, exit, WithTop(a, Top(a).(pc := pc')), Static(b.fn, pc', b.mem, b.fsp))
  {
    var n := |a.stack|;
    var s' := a.stack[n - 1 := Top(a).(pc := pc')];
    assert Known(p, s') && Shaped(p, s') && SameFns(a.stack, s');
    SpByFns(p, a.stack, s', n);
    forall i | 0 <= i < n ensures Kept(p, exit, b.mem, s', i) {
      HomeByFns(p, a.stack, s', i);
      assert Kept(p, exit, b.mem, a.stack, i);
      KeptSame(p, exit, b.mem, b.mem, a.stack, s', i);
    }
  }

  /** A store to program data. */
  lemma {:induction false} HeapSteps(p: Prog, exit: Word, a: Fresh, b: Static, x: int, v: Value, mem': map<int, Word>)
    requires Stands(p, exit, a, b) && x in p.heap && mem' == b.mem[x := v.w]
    ensures Stands(p, exit, a.(heap := a.heap[x := v]), Static(b.fn, b.pc, mem', b.fsp))
  {
    var n := |a.stack|;
    forall i | 0 <= i < n ensures Kept(p, exit, mem', a.stack, i) {
      assert Kept(p, exit, b.mem, a.stack, i);
      HomeRange(p, a.stack, i);
      forall k | 0 <= k < p.size[a.stack[i].fn]
        ensures At(mem', Home(p, a.stack, i), k) == At(b.mem, Home(p, a.stack, i), k)
      {
        assert Later(a.stack, i, i + 1) == n ==> p.InFrame(a.stack[i].fn, Home(p, a.stack, i) + k);
      }
      KeptSame(p, exit, b.mem, mem', a.stack, a.stack, i);
    }
  }

  /** The top activation's words as the static machine fetches them. */
  lemma {:induction false} TopReads(p: Prog, exit: Word, a: Fresh, b: Static)
    requires Stands(p, exit, a, b)
    ensures p.Fn(b.fn) && Holds(b.mem, p.frame[b.fn], Top(a).env, p.size[b.fn])
  {
    var n := |a.stack|;
    assert Home(p, a.stack, n - 1) == p.frame[b.fn];
    assert Kept(p, exit, b.mem, a.stack, n - 1);
  }

  // ----- calls and returns -----

  lemma {:induction false} SpPush(p: Prog, stack: seq<Act>, act: Act, i: nat)
    requires Known(p, stack) && p.Fn(act.fn) && Known(p, stack + [act]) && i <= |stack|
    ensures Sp(p, stack + [act], i) == Sp(p, stack, i)
    decreases i
  {
    if i > 0 { SpPush(p, stack, act, i - 1); }
  }

  lemma {:induction false} LaterPush(stack: seq<Act>, act: Act, i: nat, j: nat)
    requires i < |stack| && j <= |stack|
    ensures Later(stack + [act], i, j) ==
            var k := Later(stack, i, j); if k < |stack| || act.fn == stack[i].fn then k else |stack| + 1
    decreases |stack| - j
  {
    var s' := stack + [act];
    assert s'[i] == stack[i] && (j < |stack| ==> s'[j] == stack[j]);
    if j < |stack| && stack[j].fn != stack[i].fn { LaterPush(stack, act, i, j + 1); }
  }

  /** A new activation moves the words of the one it displaces into its record, and no others. */
  lemma {:induction false} HomePush(p: Prog, stack: seq<Act>, act: Act, i: nat)
    requires Known(p, stack) && p.Fn(act.fn) && Known(p, stack + [act]) && i < |stack|
    ensures Home(p, stack + [act], i) ==
            if Later(stack, i, i + 1) == |stack| && act.fn == stack[i].fn then Sp(p, stack, |stack|)
                else Home(p, stack, i)
  {
    var s' := stack + [act];
    LaterPush(stack, act, i, i + 1);
    assert s'[i] == stack[i];
    SpPush(p, stack, act, Later(stack, i, i + 1));
  }

  /** What the prologue leaves in memory. */
  lemma {:induction false} EnterMeans(p: Prog, mem: map<int, Word>, fsp: int, g: int, lr: Word, vs: seq<Value>)
    requires p.Ok() && g in p.code && |vs| < p.size[g] && p.base <= fsp && fsp + p.Rec(g) <= p.limit
    ensures var r := Enter(p, mem, fsp, g, lr, Bare(vs));
            && r.Static? && r.fn == g && r.pc == 0 && r.fsp == fsp + p.Rec(g)
            && At(r.mem, p.frame[g], 0) == lr && Holds(r.mem, p.frame[g], Params(vs, |vs|), p.size[g])
            && (forall x :: !p.InFrame(g, x) && !(fsp <= x < fsp + p.Rec(g)) ==> Peek(r.mem, x) == Peek(mem, x))
            && (p.stacked[g] ==> SameWords(mem, p.frame[g], r.mem, fsp, p.size[g]))
  {
    var args := Bare(vs);
    var r := Enter(p, mem, fsp, g, lr, args);
    var fr, n := p.frame[g], p.size[g];
    Separate(p, g, fsp);
    var c := Copy(mem, fr, fsp, n);
    var m := if p.stacked[g] then c[fsp + n := Wrap(fr)][fsp + n + 1 := Wrap(n)] else mem;
    ArriveMeans(m, fr, lr, args, |args|);
    assert r.mem == Arrive(m, fr, lr, args, |args|);
    forall d | d in Params(vs, |vs|) ensures At(r.mem, fr, d) == Params(vs, |vs|)[d].w {
      assert fr < fr + d <= fr + |args|;
    }
    if p.stacked[g] { CopyMeans(mem, fr, fsp, n); }
    hide Arrive, Copy, Enter, Params;
    if p.stacked[g] {
      forall d | 0 <= d < n ensures At(r.mem, fsp, d) == At(mem, fr, d) {
        assert Peek(c, fsp + d) == Peek(mem, fsp + d - fsp + fr);
        assert !p.InFrame(g, fsp + d);
      }
    }
  }

  /** A frame lies wholly below or above a record. */
  lemma {:induction false} Separate(p: Prog, g: int, fsp: int)
    requires p.Ok() && g in p.code && p.base <= fsp && fsp + p.Rec(g) <= p.limit
    ensures p.stacked[g] ==> p.frame[g] + p.size[g] <= fsp || fsp + p.size[g] <= p.frame[g]
  {
    var fr, n := p.frame[g], p.size[g];
    if p.stacked[g] {
      assert fr <= fsp < fr + n ==> p.InFrame(g, fsp);
      assert fsp <= fr ==> p.InFrame(g, fr);
    }
  }

  /** An activation suspended under a new one is kept. */
  lemma {:induction false} PushKept(p: Prog, exit: Word, mem: map<int, Word>, mem': map<int, Word>, stack: seq<Act>,
                                    act: Act, i: nat)
    requires p.Ok() && Known(p, stack) && Shaped(p, stack) && act.fn in p.code && Known(p, stack + [act]) && i < |stack|
    requires Sp(p, stack, |stack|) + p.Rec(act.fn) <= p.limit
    requires !p.stacked[act.fn] ==> forall j :: 0 <= j < |stack| ==> stack[j].fn != act.fn
    requires var g, fsp := act.fn, Sp(p, stack, |stack|);
             && (forall x :: !p.InFrame(g, x) && !(fsp <= x < fsp + p.Rec(g)) ==> Peek(mem', x) == Peek(mem, x))
             && (p.stacked[g] ==> SameWords(mem, p.frame[g], mem', fsp, p.size[g]))
    requires Kept(p, exit, mem, stack, i)
    ensures Kept(p, exit, mem', stack + [act], i)
  {
    var s' := stack + [act];
    var n := |stack|;
    HomePush(p, stack, act, i);
    HomeRange(p, stack, i);
    SpGrows(p, stack, 0, n);
    assert s'[i] == stack[i] && (i > 0 ==> s'[i - 1] == stack[i - 1]);
    if !(Later(stack, i, i + 1) == n && act.fn == stack[i].fn) {
      var h := Home(p, stack, i);
      forall k | 0 <= k < p.size[stack[i].fn] ensures At(mem', h, k) == At(mem, h, k) {
        if Later(stack, i, i + 1) == n { assert p.InFrame(stack[i].fn, h + k); }
      }
    }
    KeptSame(p, exit, mem, mem', stack, s', i);
  }

  /** Entering a function keeps every activation. */
  lemma {:induction false} EnterStands(p: Prog, exit: Word, mem: map<int, Word>, stack: seq<Act>, heap: map<int, Value>,
                                       next: nat, g: int, lr: Word, vs: seq<Value>)
    requires p.Ok() && exit !in p.back && Known(p, stack) && Shaped(p, stack) && AllKept(p, exit, mem, stack)
    requires DataKept(p, mem, heap)
    requires g in p.code && |vs| < p.size[g] && Sp(p, stack, |stack|) + p.Rec(g) <= p.limit
    requires !p.stacked[g] ==> forall j :: 0 <= j < |stack| ==> stack[j].fn != g
    requires var n := |stack|;
             n > 0 ==>
                 0 <= stack[n - 1].pc < |p.code[stack[n - 1].fn]| && IsCall(p.code[stack[n - 1].fn][stack[n - 1].pc])
    requires lr == Link(p, exit, stack + [Act(g, 0, map[], next)], |stack|)
    ensures Stands(p, exit, Fresh(stack + [Act(g, 0, Params(vs, |vs|), next)], heap, next + 1),
              Enter(p, mem, Sp(p, stack, |stack|), g, lr, Bare(vs)))
  {
    var n, fsp := |stack|, Sp(p, stack, |stack|);
    var act := Act(g, 0, Params(vs, |vs|), next);
    var s' := stack + [act];
    SpGrows(p, stack, 0, n);
    EnterMeans(p, mem, fsp, g, lr, vs);
    var r := Enter(p, mem, fsp, g, lr, Bare(vs));
    PushShaped(p, stack, act);
    SpPush(p, stack, act, n);
    NewData(p, mem, r.mem, fsp, g, heap);
    hide Home, Kept, Enter, Shaped, Later, Holds, SameWords, DataKept;
    NewKept(p, exit, r.mem, stack, act, next);
    forall i | 0 <= i < n ensures Kept(p, exit, r.mem, s', i) {
      PushKept(p, exit, mem, r.mem, stack, act, i);
    }
    assert AllKept(p, exit, r.mem, s');
  }

  lemma {:induction false} PushShaped(p: Prog, stack: seq<Act>, act: Act)
    requires p.Ok() && Known(p, stack) && Shaped(p, stack) && act.fn in p.code
    requires !p.stacked[act.fn] ==> forall j :: 0 <= j < |stack| ==> stack[j].fn != act.fn
    requires var n := |stack|;
             n > 0 ==>
                 0 <= stack[n - 1].pc < |p.code[stack[n - 1].fn]| && IsCall(p.code[stack[n - 1].fn][stack[n - 1].pc])
    ensures Known(p, stack + [act]) && Shaped(p, stack + [act])
  {
    var s' := stack + [act];
    assert forall i :: 0 <= i < |stack| ==> s'[i] == stack[i];
  }

  lemma {:induction false} NewKept(p: Prog, exit: Word, mem: map<int, Word>, stack: seq<Act>, act: Act, next: nat)
    requires Known(p, stack) && p.Fn(act.fn) && Known(p, stack + [act])
    requires Holds(mem, p.frame[act.fn], act.env, p.size[act.fn])
    requires At(mem, p.frame[act.fn], 0) == Link(p, exit, stack + [Act(act.fn, 0, map[], next)], |stack|)
    ensures Kept(p, exit, mem, stack + [act], |stack|)
  {
    var n, s' := |stack|, stack + [act];
    assert Home(p, s', n) == p.frame[act.fn];
    assert n > 0 ==> s'[n - 1] == stack[n - 1] == (stack + [Act(act.fn, 0, map[], next)])[n - 1];
  }

  lemma {:induction false} NewData(p: Prog, mem: map<int, Word>, mem': map<int, Word>, fsp: int, g: int,
                                   heap: map<int, Value>)
    requires p.Ok() && g in p.code && p.base <= fsp && fsp + p.Rec(g) <= p.limit && DataKept(p, mem, heap)
    requires forall x :: !p.InFrame(g, x) && !(fsp <= x < fsp + p.Rec(g)) ==> Peek(mem', x) == Peek(mem, x)
    ensures DataKept(p, mem', heap)
  {
  }

  /** Every suspended activation is back where it was before the call. */
  lemma {:induction false} PopKept(p: Prog, exit: Word, mem: map<int, Word>, stack: seq<Act>, act: Act, i: nat)
    requires p.Ok() && Known(p, stack) && act.fn in p.code && Known(p, stack + [act]) && Shaped(p, stack + [act])
    requires Shaped(p, stack) && i < |stack|
    requires Sp(p, stack, |stack|) + p.Rec(act.fn) <= p.limit
    requires Kept(p, exit, mem, stack + [act], i)
    ensures Kept(p, exit, Popped(p, mem, Sp(p, stack, |stack|), act.fn), stack, i)
  {
    var s' := stack + [act];
    var n, g, fsp := |stack|, act.fn, Sp(p, stack, |stack|);
    var m := Popped(p, mem, fsp, g);
    HomePush(p, stack, act, i);
    HomeRange(p, stack, i);
    SpGrows(p, stack, 0, n);
    Separate(p, g, fsp);
    if p.stacked[g] { CopyMeans(mem, fsp, p.frame[g], p.size[g]); }
    assert s'[i] == stack[i] && s'[n] == act && (i > 0 ==> s'[i - 1] == stack[i - 1]);
    var h, h' := Home(p, stack, i), Home(p, s', i);
    forall k | 0 <= k < p.size[stack[i].fn] ensures At(m, h, k) == At(mem, h', k) {
      if Later(stack, i, i + 1) == n { assert p.InFrame(stack[i].fn, h + k); }
      if Later(stack, i, i + 1) == n && g == stack[i].fn {
        assert s'[n].fn == s'[i].fn;
        assert Peek(m, h + k) == Peek(mem, h + k - h + h');
      } else {
        assert !p.InFrame(g, h + k);
      }
    }
    assert Link(p, exit, stack, i) == Link(p, exit, s', i);
    hide Home, Link, Popped, Later, Shaped, Copy;
    KeptSame(p, exit, mem, m, s', stack, i);
  }

  /** Returning from the innermost activation leaves the machine standing for the caller, still at
      its call. */
  lemma {:induction false} PopStands(p: Prog, exit: Word, a: Fresh, b: Static)
    requires Stands(p, exit, a, b) && |a.stack| > 1
    ensures var n := |a.stack| - 1;
            var c, m := a.stack[n - 1], Popped(p, b.mem, b.fsp - p.Rec(b.fn), b.fn);
            Stands(p, exit, a.(stack := a.stack[..n]), Static(c.fn, c.pc, m, b.fsp - p.Rec(b.fn)))
  {
    var n := |a.stack| - 1;
    var s0, act := a.stack[..n], a.stack[n];
    assert a.stack == s0 + [act];
    assert Known(p, s0) && Shaped(p, s0);
    SpPush(p, s0, act, n);
    PopHeap(p, exit, a, b);
    var m := Popped(p, b.mem, b.fsp - p.Rec(b.fn), b.fn);
    forall i | 0 <= i < n ensures Kept(p, exit, m, s0, i) {
      PopKept(p, exit, b.mem, s0, act, i);
    }
  }

  /** The epilogue writes the returning function's frame only, and finds fsp where the activation
      found it. */
  lemma {:induction false} PopHeap(p: Prog, exit: Word, a: Fresh, b: Static)
    requires Stands(p, exit, a, b)
    ensures var n := |a.stack| - 1;
            var m := Popped(p, b.mem, b.fsp - p.Rec(b.fn), b.fn);
            && b.fsp - p.Rec(b.fn) == Sp(p, a.stack, n) && p.base <= Sp(p, a.stack, n)
            && DataKept(p, m, a.heap)
  {
    var n := |a.stack| - 1;
    SpGrows(p, a.stack, 0, n);
    var fsp := b.fsp - p.Rec(b.fn);
    Separate(p, b.fn, fsp);
    if p.stacked[b.fn] {
      CopyMeans(b.mem, fsp, p.frame[b.fn], p.size[b.fn]);
      forall x | x in a.heap && x in p.heap ensures Peek(Popped(p, b.mem, fsp, b.fn), x) == a.heap[x].w {
        assert !p.InFrame(b.fn, x);
      }
    }
  }

  // ----- runs -----

  predicate Ready(p: Prog, s: Fresh) {
    s.Fresh? && s.stack != [] && p.Fn(Top(s).fn) && 0 <= Top(s).pc < |p.code[Top(s).fn]|
  }

  function NextOp(p: Prog, s: Fresh): Op
    requires Ready(p, s)
  {
    p.code[Top(s).fn][Top(s).pc]
  }

  /** The next step is a call whose record does not fit the frame stack. */
  predicate Overflows(p: Prog, s: Fresh) {
    && Ready(p, s) && IsCall(NextOp(p, s))
    && var g := Callee(p, Top(s), NextOp(p, s));
       p.Fn(g) && p.stacked[g] && Known(p, s.stack) && Sp(p, s.stack, |s.stack|) + p.Rec(g) > p.limit
  }

  /** The next step reads or writes a frame word through its address only when the activation it
      belongs to is the innermost one of its function. */
  predicate InReach(p: Prog, s: Fresh) {
    Ready(p, s) && (NextOp(p, s).Load? || NextOp(p, s).Store?) && NextOp(p, s).a in Top(s).env ==>
      var r := Where(p, s, Top(s).env[NextOp(p, s).a]); r.Local? ==> Inner(s.stack, r.i)
  }

  /** Same standing, or the same result with the same data and an empty frame stack. */
  ghost predicate Agrees(p: Prog, exit: Word, a: Fresh, b: Static) {
    match a
    case Fresh(_, _, _) => Stands(p, exit, a, b)
    case Result(v, heap) => b.Finished? && b.v == v.w && b.sp == p.base && DataKept(p, b.final, heap)
    case Stuck => false
  }

  lemma {:induction false} FetchMeans(p: Prog, exit: Word, a: Fresh, b: Static, srcs: seq<int>)
    requires Stands(p, exit, a, b) && Defined(Top(a).env, srcs)
    ensures p.Fn(b.fn) && Fetch(p, b.fn, b.mem, srcs) == Bare(Values(Top(a).env, srcs))
  {
    TopReads(p, exit, a, b);
    var env := Top(a).env;
    forall i | 0 <= i < |srcs| ensures Fetch(p, b.fn, b.mem, srcs)[i] == env[srcs[i]].w {
      assert At(b.mem, p.frame[b.fn], srcs[i]) == env[srcs[i]].w;
    }
  }

  lemma {:induction false} ReadyStands(p: Prog, exit: Word, a: Fresh, b: Static)
    requires Stands(p, exit, a, b) && StepFresh(p, a) != Stuck
    ensures Ready(p, a) && b.fn == Top(a).fn && b.pc == Top(a).pc && p.OpOk(b.fn, b.pc)
  {
  }

  /** A word of the top activation as both machines see it. */
  lemma {:induction false} TopWord(p: Prog, exit: Word, a: Fresh, b: Static, x: int)
    requires Stands(p, exit, a, b) && x in Top(a).env
    ensures p.Fn(b.fn) && Peek(b.mem, p.frame[b.fn] + x) == Top(a).env[x].w
  {
    TopReads(p, exit, a, b);
    assert At(b.mem, p.frame[b.fn], x) == Top(a).env[x].w;
  }

  lemma {:induction false} EntersStands(p: Prog, exit: Word, a: Fresh, b: Static, g: int, args: seq<int>)
    requires Stands(p, exit, a, b) && Ready(p, a) && IsCall(NextOp(p, a)) && Calls(p, a, g, args) != Stuck
    requires g == Callee(p, Top(a), NextOp(p, a))
    ensures p.Fn(b.fn)
    ensures if Overflows(p, a) then Enters(p, b, g, args) == Sink
              else Stands(p, exit, Calls(p, a, g, args), Enters(p, b, g, args))
  {
    assert p.OpOk(b.fn, b.pc);
    FetchMeans(p, exit, a, b, args);
    if !Overflows(p, a) {
      var vs := Values(Top(a).env, args);
      SpGrows(p, a.stack, 0, |a.stack|);
      assert !p.stacked[g] ==> forall j :: 0 <= j < |a.stack| ==> a.stack[j].fn != g;
      EnterStands(p, exit, b.mem, a.stack, a.heap, a.next, g, p.site[(b.fn, b.pc)], vs);
    }
  }

  lemma {:induction false} CallStands(p: Prog, exit: Word, a: Fresh, b: Static)
    requires Stands(p, exit, a, b) && StepFresh(p, a) != Stuck && Ready(p, a) && IsCall(NextOp(p, a))
    ensures if Overflows(p, a) then StepStatic(p, b) == Sink else Stands(p, exit, StepFresh(p, a), StepStatic(p, b))
  {
    hide AllKept, Shaped, Sp, Prog.Ok, Overflows, Calls, Enters;
    var op := NextOp(p, a);
    var g := Callee(p, Top(a), op);
    assert StepFresh(p, a) == Calls(p, a, g, op.args);
    EntersStands(p, exit, a, b, g, op.args);
    if op.CallPtr? { TopWord(p, exit, a, b, op.a); }
    assert StepStatic(p, b) == Enters(p, b, g, op.args);
  }

  /** The result and the return address survive the restore. */
  lemma {:induction false} LeaveMeans(p: Prog, exit: Word, a: Fresh, b: Static, x: int)
    requires Stands(p, exit, a, b) && x in Top(a).env && p.Fn(b.fn)
    requires 0 <= b.pc < |p.code[b.fn]| && p.code[b.fn][b.pc] == Ret(x)
    ensures var fsp := b.fsp - p.Rec(b.fn);
            StepStatic(p, b) == Resume(p, Popped(p, b.mem, fsp, b.fn), fsp, Link(p, exit, a.stack, |a.stack| - 1),
                Top(a).env[x].w)
  {
    TopWord(p, exit, a, b, x);
    assert Kept(p, exit, b.mem, a.stack, |a.stack| - 1);
    assert Home(p, a.stack, |a.stack| - 1) == p.frame[b.fn];
  }

  /** A value arrives in word d of the top activation. */
  lemma {:induction false} TopWrites(p: Prog, exit: Word, a: Fresh, b: Static, d: int, v: Value)
    requires Stands(p, exit, a, b) && p.Fn(b.fn) && 0 < d < p.size[b.fn]
    ensures Stands(p, exit, Sets(a, d, v), Static(b.fn, b.pc + 1, b.mem[p.frame[b.fn] + d := v.w], b.fsp))
  {
    var n := |a.stack|;
    hide Prog.Ok, AllKept, Shaped, Sp, DataKept;
    CellSteps(p, exit, a, b, n - 1, d, v);
    var a', b' := SetLocal(a, n - 1, d, v), b.(mem := b.mem[p.frame[b.fn] + d := v.w]);
    TopBranches(p, exit, a', b', b.pc + 1);
    assert Sets(a, d, v) == WithTop(a', Top(a').(pc := b.pc + 1));
  }

  /** The caller resumes with the result in its destination word. */
  lemma {:induction false} ResumeStands(p: Prog, exit: Word, a: Fresh, b: Static, v: Value)
    requires Stands(p, exit, a, b) && |a.stack| > 1 && p.Fn(b.fn)
    ensures var fsp := b.fsp - p.Rec(b.fn);
            Stands(p, exit, Returned(p, a, v),
                Resume(p, Popped(p, b.mem, fsp, b.fn), fsp, Link(p, exit, a.stack, |a.stack| - 1), v.w))
  {
    var n := |a.stack| - 1;
    var c := a.stack[n - 1];
    assert p.OpOk(c.fn, c.pc) && IsCall(p.code[c.fn][c.pc]);
    var fsp := b.fsp - p.Rec(b.fn);
    var m := Popped(p, b.mem, fsp, b.fn);
    var d := p.code[c.fn][c.pc].d;
    PopStands(p, exit, a, b);
    hide Prog.Ok, AllKept, Shaped, Sp, DataKept;
    TopWrites(p, exit, a.(stack := a.stack[..n]), Static(c.fn, c.pc, m, fsp), d, v);
  }

  lemma {:induction false} ReturnStands(p: Prog, exit: Word, a: Fresh, b: Static)
    requires Stands(p, exit, a, b) && StepFresh(p, a) != Stuck && Ready(p, a) && NextOp(p, a).Ret?
    ensures Agrees(p, exit, StepFresh(p, a), StepStatic(p, b))
  {
    hide AllKept, Shaped, Prog.Ok, DataKept;
    var x := NextOp(p, a).s;
    LeaveMeans(p, exit, a, b, x);
    if |a.stack| == 1 {
      PopHeap(p, exit, a, b);
    } else {
      ResumeStands(p, exit, a, b, Top(a).env[x]);
    }
  }

  /** What an Eval or an Addr gives its destination. */
  function Computed(p: Prog, t: Act, op: Op): Value
    requires p.Fn(t.fn) && (op.Eval? || op.Addr?) && (op.Eval? ==> Defined(t.env, op.srcs))
  {
    if op.Addr? then Value(Wrap(p.frame[t.fn] + op.o), t.id)
    else Value(op.f(Bare(Values(t.env, op.srcs))), if 0 <= op.base < |op.srcs| then t.env[op.srcs[op.base]].own else -1)
  }

  lemma {:induction false} EvalFresh(p: Prog, a: Fresh)
    requires Ready(p, a) && (NextOp(p, a).Eval? || NextOp(p, a).Addr?) && StepFresh(p, a) != Stuck
    ensures NextOp(p, a).Eval? ==> Defined(Top(a).env, NextOp(p, a).srcs)
    ensures StepFresh(p, a) == Sets(a, NextOp(p, a).d, Computed(p, Top(a), NextOp(p, a)))
  {
    hide Sets;
  }

  lemma {:induction false} EvalStatic(p: Prog, a: Fresh, b: Static)
    requires Ready(p, a) && (NextOp(p, a).Eval? || NextOp(p, a).Addr?) && b.Static? && b.fn == Top(a).fn
    requires b.pc == Top(a).pc
    requires NextOp(p, a).Eval? ==>
               Defined(Top(a).env, NextOp(p, a).srcs)
                   && Fetch(p, b.fn, b.mem, NextOp(p, a).srcs) == Bare(Values(Top(a).env, NextOp(p, a).srcs))
    ensures StepStatic(p, b)
         == Static(b.fn, b.pc + 1, b.mem[p.frame[b.fn] + NextOp(p, a).d := Computed(p, Top(a), NextOp(p, a)).w], b.fsp)
  {
    hide Fetch, Bare, Values;
  }

  lemma {:induction false} EvalStands(p: Prog, exit: Word, a: Fresh, b: Static)
    requires Stands(p, exit, a, b) && StepFresh(p, a) != Stuck && Ready(p, a)
    requires NextOp(p, a).Eval? || NextOp(p, a).Addr?
    ensures Stands(p, exit, StepFresh(p, a), StepStatic(p, b))
  {
    ReadyStands(p, exit, a, b);
    StandsAt(p, exit, a, b);
    hide Stands, Prog.Ok, Sets, StepFresh, StepStatic, Computed, Fetch;
    var op := NextOp(p, a);
    EvalFresh(p, a);
    if op.Eval? { FetchMeans(p, exit, a, b, op.srcs); }
    EvalStatic(p, a, b);
    TopWrites(p, exit, a, b, op.d, Computed(p, Top(a), op));
  }

  lemma StandsAt(p: Prog, exit: Word, a: Fresh, b: Static)
    requires Stands(p, exit, a, b)
    ensures a.Fresh? && a.stack != [] && b.Static? && p.Fn(b.fn) && b.fn == Top(a).fn && b.pc == Top(a).pc
  {
  }

  /** A word read through its address: program data, or the innermost activation's frame. */
  lemma {:induction false} LoadStands(p: Prog, exit: Word, a: Fresh, b: Static)
    requires Stands(p, exit, a, b) && StepFresh(p, a) != Stuck && Ready(p, a) && NextOp(p, a).Load? && InReach(p, a)
    ensures Stands(p, exit, StepFresh(p, a), StepStatic(p, b))
  {
    ReadyStands(p, exit, a, b);
    var op := NextOp(p, a);
    TopWord(p, exit, a, b, op.a);
    var v := Top(a).env[op.a];
    match Where(p, a, v)
    case Data(x) =>
      hide AllKept, Shaped, Sp, Prog.Ok, Sets;
      TopWrites(p, exit, a, b, op.d, a.heap[x]);
    case Local(i, o) =>
      CellReads(p, exit, a, b, i, o);
      hide AllKept, Shaped, Sp, Prog.Ok, DataKept, Sets;
      TopWrites(p, exit, a, b, op.d, a.stack[i].env[o]);
    case Nowhere =>
  }

  lemma {:induction false} CellReads(p: Prog, exit: Word, a: Fresh, b: Static, i: nat, o: int)
    requires Stands(p, exit, a, b) && i < |a.stack| && Inner(a.stack, i) && o in a.stack[i].env
    ensures Peek(b.mem, p.frame[a.stack[i].fn] + o) == a.stack[i].env[o].w
  {
    assert Kept(p, exit, b.mem, a.stack, i);
    assert Home(p, a.stack, i) == p.frame[a.stack[i].fn];
    assert At(b.mem, p.frame[a.stack[i].fn], o) == a.stack[i].env[o].w;
  }

  lemma {:induction false} StoresStands(p: Prog, exit: Word, a: Fresh, b: Static, v: Value, x: Value)
    requires Stands(p, exit, a, b) && Stores(p, a, v, x) != Stuck
    requires var r := Where(p, a, v); r.Local? ==> Inner(a.stack, r.i)
    ensures Stands(p, exit, Stores(p, a, v, x), b.(pc := b.pc + 1, mem := b.mem[v.w := x.w]))
  {
    hide AllKept, Shaped, Sp, Prog.Ok, DataKept, Later;
    var b' := b.(mem := b.mem[v.w := x.w]);
    match Where(p, a, v)
    case Data(y) =>
      HeapSteps(p, exit, a, b, y, x, b'.mem);
      TopBranches(p, exit, a.(heap := a.heap[y := x]), b', b.pc + 1);
    case Local(i, o) =>
      CellSteps(p, exit, a, b, i, o, x);
      TopBranches(p, exit, SetLocal(a, i, o, x), b', b.pc + 1);
    case Nowhere =>
  }

  /** A word written through its address. */
  lemma {:induction false} StoreStands(p: Prog, exit: Word, a: Fresh, b: Static)
    requires Stands(p, exit, a, b) && StepFresh(p, a) != Stuck && Ready(p, a) && NextOp(p, a).Store? && InReach(p, a)
    ensures Stands(p, exit, StepFresh(p, a), StepStatic(p, b))
  {
    var op := NextOp(p, a);
    TopWord(p, exit, a, b, op.a);
    TopWord(p, exit, a, b, op.s);
    assert b.fn == Top(a).fn && b.pc == Top(a).pc;
    hide Stands, Stores, Where, Inner;
    StoresStands(p, exit, a, b, Top(a).env[op.a], Top(a).env[op.s]);
  }

  lemma {:induction false} BranchStands(p: Prog, exit: Word, a: Fresh, b: Static)
    requires Stands(p, exit, a, b) && StepFresh(p, a) != Stuck && Ready(p, a) && NextOp(p, a).Br?
    ensures Stands(p, exit, StepFresh(p, a), StepStatic(p, b))
  {
    var op := NextOp(p, a);
    TopWord(p, exit, a, b, op.s);
    hide AllKept, Shaped, Sp, Prog.Ok, DataKept;
    TopBranches(p, exit, a, b, if Top(a).env[op.s].w != 0 then op.yes else op.no);
  }

  /** One step: the static machine follows, or is diverted exactly when the record does not fit. */
  lemma {:induction false} StepStands(p: Prog, exit: Word, a: Fresh, b: Static)
    requires Stands(p, exit, a, b) && StepFresh(p, a) != Stuck && InReach(p, a)
    ensures if Overflows(p, a) then StepStatic(p, b) == Sink else Agrees(p, exit, StepFresh(p, a), StepStatic(p, b))
  {
    ReadyStands(p, exit, a, b);
    hide Stands, StepFresh, StepStatic, InReach;
    var op := NextOp(p, a);
    if IsCall(op) {
      CallStands(p, exit, a, b);
    } else if op.Ret? {
      ReturnStands(p, exit, a, b);
    } else if op.Store? {
      StoreStands(p, exit, a, b);
    } else if op.Br? {
      BranchStands(p, exit, a, b);
    } else if op.Load? {
      LoadStands(p, exit, a, b);
    } else {
      EvalStands(p, exit, a, b);
    }
  }

  function RunFresh(p: Prog, s: Fresh, k: nat): Fresh
    decreases k
  {
    if k == 0 || !s.Fresh? then s else RunFresh(p, StepFresh(p, s), k - 1)
  }

  function RunStatic(p: Prog, s: Static, k: nat): Static
    decreases k
  {
    if k == 0 || !s.Static? then s else RunStatic(p, StepStatic(p, s), k - 1)
  }

  /** No call of the run overflows the frame stack. */
  predicate Fits(p: Prog, s: Fresh, k: nat)
    decreases k
  {
    k == 0 || !s.Fresh? || (!Overflows(p, s) && Fits(p, StepFresh(p, s), k - 1))
  }

  /** Every frame word the run reads or writes through its address is in reach. */
  predicate AllInReach(p: Prog, s: Fresh, k: nat)
    decreases k
  {
    k == 0 || !s.Fresh? || (InReach(p, s) && AllInReach(p, StepFresh(p, s), k - 1))
  }

  lemma {:induction false} RunStands(p: Prog, exit: Word, a: Fresh, b: Static, k: nat)
    requires Agrees(p, exit, a, b) && RunFresh(p, a, k) != Stuck && AllInReach(p, a, k)
    ensures if Fits(p, a, k) then Agrees(p, exit, RunFresh(p, a, k), RunStatic(p, b, k)) else RunStatic(p, b, k) == Sink
    decreases k
  {
    hide Stands, StepFresh, StepStatic, Overflows, InReach;
    if k > 0 && a.Fresh? {
      assert b.Static? by { StandsStatic(p, exit, a, b); }
      NotStuck(p, a, k);
      StepStands(p, exit, a, b);
      if !Overflows(p, a) { RunStands(p, exit, StepFresh(p, a), StepStatic(p, b), k - 1); }
    }
  }

  lemma StandsStatic(p: Prog, exit: Word, a: Fresh, b: Static)
    requires Stands(p, exit, a, b)
    ensures b.Static?
  {
  }

  lemma NotStuck(p: Prog, a: Fresh, k: nat)
    requires k > 0 && a.Fresh? && RunFresh(p, a, k) != Stuck
    ensures StepFresh(p, a) != Stuck
  {
  }

  /** Every run of every program, from entering a function on an empty frame stack: recursion on
      static frames gives the results of recursion on fresh ones, as long as local variables are
      used through their addresses only while their activation is its function's innermost, unless
      the frame stack overflows, and then it reaches the sink. */
  lemma {:induction false} ProgramStands(p: Prog, exit: Word, mem: map<int, Word>, heap: map<int, Value>, f: int,
                                         vs: seq<Value>, k: nat)
    requires p.Ok() && exit !in p.back && f in p.code && |vs| < p.size[f] && p.base + p.Rec(f) <= p.limit
    requires DataKept(p, mem, heap)
    requires var a := Fresh([Act(f, 0, Params(vs, |vs|), 0)], heap, 1);
             RunFresh(p, a, k) != Stuck && AllInReach(p, a, k)
    ensures var a, b := Fresh([Act(f, 0, Params(vs, |vs|), 0)], heap, 1), Enter(p, mem, p.base, f, exit, Bare(vs));
            if Fits(p, a, k) then Agrees(p, exit, RunFresh(p, a, k), RunStatic(p, b, k)) else RunStatic(p, b, k) == Sink
  {
    EnterStands(p, exit, mem, [], heap, 0, f, exit, vs);
    assert [] + [Act(f, 0, Params(vs, |vs|), 0)] == [Act(f, 0, Params(vs, |vs|), 0)];
    RunStands(p, exit, Fresh([Act(f, 0, Params(vs, |vs|), 0)], heap, 1), Enter(p, mem, p.base, f, exit, Bare(vs)), k);
  }
}
