/** The vfork barrier (host/dmacc/func.go): what a parent finds when it resumes after a child has
    run on its frames, over every well-nested run of forks. */
module Forks {
  import opened Words
  import opened Frames

  /** A process image's layout, in words: the frame and size of every function, the block of tail
      frames, the frame stack, and the shadow stack of saved frame-stack pointers. */
  datatype Layout = Layout(frame: map<int, int>, size: map<int, nat>, tail: int, tails: nat,
                           base: int, limit: int, shadow: int, shadowEnd: int) {
    predicate Fn(f: int) {
      f in frame && f in size
    }

    predicate OnStacks(a: int) {
      base <= a < limit || shadow <= a < shadowEnd
    }

    /** Frames and tail block lie off both stacks; the stacks do not meet. */
    ghost predicate Ok() {
      && 0 <= base <= limit < M32 && shadow <= shadowEnd
      && (limit <= shadow || shadowEnd <= base)
      && (forall f :: f in frame ==>
                        Fn(f) && size[f] >= 1 && Off(frame[f], size[f]) && Clear(frame[f], size[f], tail, tails))
      && Off(tail, tails)
    }

    ghost predicate Off(a: int, n: nat) {
      forall x :: a <= x < a + n ==> !OnStacks(x)
    }

    /** Two blocks do not overlap. */
    predicate Clear(a: int, n: nat, b: int, m: nat) {
      n == 0 || m == 0 || a + n <= b || b + m <= a
    }
  }

  datatype Image = Image(mem: map<int, Word>, fsp: int, fshp: int)

  /** The fork site needs room for the caller's frame and the tail block, and a shadow word. */
  predicate ForkFits(l: Layout, s: Image, f: int)
    requires l.Fn(f)
  {
    s.fsp + l.size[f] + l.tails <= l.limit && s.fshp + 1 <= l.shadowEnd
  }

  /** Before the fork: fsp to the shadow stack, own frame and tail block to the frame stack. */
  function ForkPush(l: Layout, s: Image, f: int): Image
    requires l.Fn(f)
  {
    var m0 := s.mem[s.fshp := Wrap(s.fsp)];
    var m1 := Copy(m0, l.frame[f], s.fsp, l.size[f]);
    var m2 := Copy(m1, l.tail, s.fsp + l.size[f], l.tails);
    Image(m2, s.fsp + l.size[f] + l.tails, s.fshp + 1)
  }

  /** After the fork: the parent, and a failed fork, undo; the child keeps the image. */
  function ForkPop(l: Layout, s: Image, f: int, r0: Word): Image
    requires l.Fn(f)
  {
    if r0 == 0 then s
    else
      var fsp := Peek(s.mem, s.fshp - 1);
      var m1 := Copy(s.mem, fsp, l.frame[f], l.size[f]);
      Image(Copy(m1, fsp + l.size[f], l.tail, l.tails), fsp, s.fshp - 1)
  }

  /** The frame stack's own moves. */
  function Pushed(l: Layout, s: Image, g: int): Image
    requires l.Fn(g)
  {
    var n := l.size[g];
    Image(Copy(s.mem, l.frame[g], s.fsp, n)[s.fsp + n := Wrap(l.frame[g])][s.fsp + n + 1 := Wrap(n)], s.fsp + n + 2,
        s.fshp)
  }

  function Dropped(l: Layout, s: Image, g: int): Image
    requires l.Fn(g)
  {
    var fsp := s.fsp - l.size[g] - 2;
    Image(Copy(s.mem, fsp, l.frame[g], l.size[g]), fsp, s.fshp)
  }

  // ----- runs -----

  /** What a process does until it execs, exits or is killed. A fork lets a child run to its end on
      this image and then resumes with a nonzero pid, or -1 and no child. A process killed while
      suspended in a fork never resumes. */
  datatype Run =
    | Done
    | Write(a: int, v: Word, rest: Run)
    | Push(g: int, rest: Run)
    | Pop(g: int, rest: Run)
    | Fork(f: int, child: Run, pid: Word, rest: Run)
    | Killed(f: int, child: Run)

  /** The image when the process is gone. */
  function Exec(l: Layout, s: Image, run: Run): Image
    requires Named(l, run)
    decreases run, 0
  {
    match run
    case Done => s
    case Write(a, v, rest) => Exec(l, s.(mem := s.mem[a := v]), rest)
    case Push(g, rest) => Exec(l, Pushed(l, s, g), rest)
    case Pop(g, rest) => Exec(l, Dropped(l, s, g), rest)
    case Fork(f, child, pid, rest) => Exec(l, ForkPop(l, ChildDone(l, s, f, child), f, pid), rest)
    case Killed(f, child) => ChildDone(l, s, f, child)
  }

  /** The image the parent resumes in: its barrier, then the child, which returns from the same
      site with zero. */
  function ChildDone(l: Layout, s: Image, f: int, child: Run): Image
    requires l.Fn(f) && Named(l, child)
    decreases child, 1
  {
    Exec(l, ForkPop(l, ForkPush(l, s, f), f, 0), child)
  }

  predicate Named(l: Layout, run: Run)
    decreases run
  {
    match run
    case Done => true
    case Write(_, _, rest) => Named(l, rest)
    case Push(g, rest) => l.Fn(g) && Named(l, rest)
    case Pop(g, rest) => l.Fn(g) && Named(l, rest)
    case Fork(f, child, _, rest) => l.Fn(f) && Named(l, child) && Named(l, rest)
    case Killed(f, child) => l.Fn(f) && Named(l, child)
  }

  /** The vfork discipline of a process that started with fsp == lo: it leaves the shadow stack and
      the frame stack below lo alone, never returns out of an activation below lo, and stops where
      a push would reach the sink. */
  ghost predicate Legal(l: Layout, lo: int, s: Image, run: Run)
    decreases run
  {
    && Named(l, run)
    && match run
       case Done => true
       case Write(a, v, rest) =>
         !(l.base <= a < lo) && !(l.shadow <= a < l.shadowEnd) && Legal(l, lo, s.(mem := s.mem[a := v]), rest)
       case Push(g, rest) => s.fsp + l.size[g] + 2 <= l.limit && Legal(l, lo, Pushed(l, s, g), rest)
       case Pop(g, rest) => lo <= s.fsp - l.size[g] - 2 && Legal(l, lo, Dropped(l, s, g), rest)
       case Fork(f, child, pid, rest) =>
         && ForkFits(l, s, f) && pid != 0
         && Legal(l, ForkPush(l, s, f).fsp, ForkPush(l, s, f), child)
         && Legal(l, lo, ForkPop(l, ChildDone(l, s, f, child), f, pid), rest)
       case Killed(f, child) =>
         ForkFits(l, s, f) && Legal(l, ForkPush(l, s, f).fsp, ForkPush(l, s, f), child)
  }

  /** The shadow words never popped: one for every process killed while suspended in a fork. */
  function Leaks(run: Run): nat
    decreases run
  {
    match run
    case Done => 0
    case Write(_, _, rest) => Leaks(rest)
    case Push(_, rest) => Leaks(rest)
    case Pop(_, rest) => Leaks(rest)
    case Fork(_, child, _, rest) => Leaks(child) + Leaks(rest)
    case Killed(_, child) => Leaks(child) + 1
  }

  // ----- what a run leaves alone -----

  ghost predicate Placed(l: Layout, lo: int, s: Image) {
    l.Ok() && l.base <= lo <= s.fsp <= l.limit && l.shadow <= s.fshp <= l.shadowEnd
  }

  /** From s to t: nothing below lo or below s's shadow pointer changed, and the shadow words left
      over hold pointers at or above lo. */
  ghost predicate Keeps(l: Layout, lo: int, s: Image, t: Image, leaks: nat) {
    && Placed(l, lo, t) && t.fshp == s.fshp + leaks
    && (forall a :: l.base <= a < lo || l.shadow <= a < s.fshp ==> Peek(t.mem, a) == Peek(s.mem, a))
    && (forall a :: s.fshp <= a < t.fshp ==> lo <= Peek(t.mem, a) <= l.limit)
  }

  lemma {:induction false} KeepsTrans(l: Layout, lo: int, s: Image, t: Image, u: Image, i: nat, j: nat)
    requires Keeps(l, lo, s, t, i) && Keeps(l, lo, t, u, j) && Placed(l, lo, s)
    ensures Keeps(l, lo, s, u, i + j)
  {
  }

  /** A block of words moved; nothing else written. */
  ghost predicate Moved(mem: map<int, Word>, mem': map<int, Word>, from: int, to: int, n: nat) {
    && (forall a :: to <= a < to + n ==> Peek(mem', a) == Peek(mem, a - to + from))
    && (forall a :: !(to <= a < to + n) ==> Peek(mem', a) == Peek(mem, a))
  }

  /** A block copied off the stacks leaves them alone. */
  lemma {:induction false} CopyOff(l: Layout, mem: map<int, Word>, from: int, to: int, n: nat)
    requires l.Off(to, n) && l.base <= from && from + n <= l.limit
    ensures forall a :: l.OnStacks(a) ==> Peek(Copy(mem, from, to, n), a) == Peek(mem, a)
    ensures Moved(mem, Copy(mem, from, to, n), from, to, n)
  {
    if from < to + n && to < from + n {
      var x := if from <= to then to else from;
      assert l.OnStacks(x) && to <= x < to + n;
    }
    CopyMeans(mem, from, to, n);
  }

  /** A block copied onto the frame stack. */
  lemma {:induction false} CopyOn(l: Layout, mem: map<int, Word>, from: int, to: int, n: nat)
    requires l.Off(from, n) && l.base <= to && to + n <= l.limit
    ensures Moved(mem, Copy(mem, from, to, n), from, to, n)
  {
    if from < to + n && to < from + n {
      var x := if from <= to then to else from;
      assert l.OnStacks(x) && from <= x < from + n;
    }
    CopyMeans(mem, from, to, n);
  }

  lemma {:induction false} PushedKeeps(l: Layout, lo: int, s: Image, g: int)
    requires Placed(l, lo, s) && l.Fn(g) && s.fsp + l.size[g] + 2 <= l.limit
    ensures Keeps(l, lo, s, Pushed(l, s, g), 0)
  {
    CopyOn(l, s.mem, l.frame[g], s.fsp, l.size[g]);
  }

  lemma {:induction false} DroppedKeeps(l: Layout, lo: int, s: Image, g: int)
    requires Placed(l, lo, s) && l.Fn(g) && lo <= s.fsp - l.size[g] - 2
    ensures Keeps(l, lo, s, Dropped(l, s, g), 0)
  {
    CopyOff(l, s.mem, s.fsp - l.size[g] - 2, l.frame[g], l.size[g]);
  }

  /** The fork site writes its save area and one shadow word. */
  lemma {:induction false} ForkPushWords(l: Layout, lo: int, s: Image, f: int)
    requires Placed(l, lo, s) && l.Fn(f) && ForkFits(l, s, f)
    ensures var t := ForkPush(l, s, f);
            && Peek(t.mem, s.fshp) == s.fsp
            && forall a :: !(s.fsp <= a < t.fsp) && a != s.fshp ==> Peek(t.mem, a) == Peek(s.mem, a)
  {
    var n := l.size[f];
    var m0 := s.mem[s.fshp := Wrap(s.fsp)];
    CopyOn(l, m0, l.frame[f], s.fsp, n);
    CopyOn(l, Copy(m0, l.frame[f], s.fsp, n), l.tail, s.fsp + n, l.tails);
  }

  /** Two blocks moved one after the other, read back from where they went. */
  lemma {:induction false} TwoMoved(l: Layout, m0: map<int, Word>, m1: map<int, Word>, m2: map<int, Word>, a: int,
                                    b: int, n: nat, a': int, b': int, n': nat)
    requires Moved(m0, m1, a, b, n) && Moved(m1, m2, a', b', n') && l.Clear(b, n, b', n') && l.Clear(b, n, a', n')
    ensures SameWords(m0, a, m2, b, n) && SameWords(m0, a', m2, b', n')
  {
    forall d | 0 <= d < n ensures At(m2, b, d) == At(m0, a, d) {
      assert Peek(m1, b + d) == Peek(m0, b + d - b + a);
    }
    forall d | 0 <= d < n' ensures At(m2, b', d) == At(m0, a', d) {
      assert Peek(m2, b' + d) == Peek(m1, b' + d - b' + a');
    }
  }

  /** A block off the stacks is clear of a block on the frame stack. */
  lemma {:induction false} OffOn(l: Layout, a: int, n: nat, b: int, m: nat)
    requires l.Off(a, n) && l.base <= b && b + m <= l.limit
    ensures l.Clear(a, n, b, m) && l.Clear(b, m, a, n)
  {
    if !l.Clear(a, n, b, m) {
      var x := if a <= b then b else a;
      assert l.OnStacks(x) && a <= x < a + n;
    }
  }

  lemma {:induction false} SameVia(mem: map<int, Word>, mem': map<int, Word>, mem'': map<int, Word>, h: int, h': int,
                                   h'': int, n: nat)
    requires SameWords(mem, h, mem', h', n) && SameWords(mem', h', mem'', h'', n)
    ensures SameWords(mem, h, mem'', h'', n)
  {
    hide At;
    forall d | 0 <= d < n ensures At(mem'', h'', d) == At(mem, h, d) {
      assert At(mem', h', d) == At(mem, h, d);
    }
  }

  /** The save area holds the caller's frame and the tail block. */
  lemma {:induction false} ForkPushSaves(l: Layout, lo: int, s: Image, f: int)
    requires Placed(l, lo, s) && l.Fn(f) && ForkFits(l, s, f)
    ensures var t := ForkPush(l, s, f);
            && SameWords(s.mem, l.frame[f], t.mem, s.fsp, l.size[f])
            && SameWords(s.mem, l.tail, t.mem, s.fsp + l.size[f], l.tails)
  {
    hide Copy, Moved, SameWords;
    var n := l.size[f];
    var m0 := s.mem[s.fshp := Wrap(s.fsp)];
    var m1 := Copy(m0, l.frame[f], s.fsp, n);
    var m2 := Copy(m1, l.tail, s.fsp + n, l.tails);
    CopyOn(l, m0, l.frame[f], s.fsp, n);
    CopyOn(l, m1, l.tail, s.fsp + n, l.tails);
    OffOn(l, l.tail, l.tails, s.fsp, n);
    TwoMoved(l, m0, m1, m2, l.frame[f], s.fsp, n, l.tail, s.fsp + n, l.tails);
    assert l.OnStacks(s.fshp);
    Unmoved(l, s.mem, m0, l.frame[f], n, s.fshp);
    Unmoved(l, s.mem, m0, l.tail, l.tails, s.fshp);
    SameVia(s.mem, m0, m2, l.frame[f], l.frame[f], s.fsp, n);
    SameVia(s.mem, m0, m2, l.tail, l.tail, s.fsp + n, l.tails);
  }

  lemma {:induction false} Unmoved(l: Layout, mem: map<int, Word>, mem': map<int, Word>, h: int, n: nat, x: int)
    requires l.Off(h, n) && l.OnStacks(x) && forall a :: a != x ==> Peek(mem', a) == Peek(mem, a)
    ensures SameWords(mem, h, mem', h, n)
  {
    forall d | 0 <= d < n ensures At(mem', h, d) == At(mem, h, d) {
      assert !l.OnStacks(h + d);
    }
  }

  lemma {:induction false} ForkPushKeeps(l: Layout, lo: int, s: Image, f: int)
    requires Placed(l, lo, s) && l.Fn(f) && ForkFits(l, s, f)
    ensures Keeps(l, lo, s, ForkPush(l, s, f), 1) && Placed(l, ForkPush(l, s, f).fsp, ForkPush(l, s, f))
  {
    ForkPushWords(l, lo, s, f);
    hide ForkPush;
  }

  /** A burst writes its destination only, whatever it reads. */
  lemma {:induction false} CopyOutside(mem: map<int, Word>, from: int, to: int, n: nat)
    ensures forall a :: !(to <= a < to + n) ==> Peek(Copy(mem, from, to, n), a) == Peek(mem, a)
    decreases n
  {
    if n > 0 { CopyOutside(mem[to := Peek(mem, from)], from + 1, to + 1, n - 1); }
  }

  /** The resuming parent writes its own frame and the tail block only. */
  lemma {:induction false} ForkPopWords(l: Layout, s: Image, f: int, pid: Word)
    requires l.Ok() && l.Fn(f) && pid != 0
    ensures var t := ForkPop(l, s, f, pid);
            t.fshp == s.fshp - 1 && t.fsp == Peek(s.mem, t.fshp)
                && forall a :: l.OnStacks(a) ==> Peek(t.mem, a) == Peek(s.mem, a)
  {
    var fsp := Peek(s.mem, s.fshp - 1);
    var m1 := Copy(s.mem, fsp, l.frame[f], l.size[f]);
    CopyOutside(s.mem, fsp, l.frame[f], l.size[f]);
    CopyOutside(m1, fsp + l.size[f], l.tail, l.tails);
  }

  /** The whole fork, given what the child kept. */
  lemma {:induction false} ForkKeeps(l: Layout, lo: int, s: Image, f: int, t: Image, k: nat, pid: Word)
    requires Placed(l, lo, s) && l.Fn(f) && ForkFits(l, s, f) && pid != 0
    requires Keeps(l, ForkPush(l, s, f).fsp, ForkPush(l, s, f), t, k)
    ensures Keeps(l, lo, s, t, k + 1) && Keeps(l, lo, s, ForkPop(l, t, f, pid), k)
    ensures ForkPop(l, t, f, pid).fsp == s.fsp <==> k == 0
  {
    ForkPushWords(l, lo, s, f);
    ForkPushKeeps(l, lo, s, f);
    ForkPopWords(l, t, f, pid);
    var s1, u := ForkPush(l, s, f), ForkPop(l, t, f, pid);
    assert s1.fsp > s.fsp && s1.fshp == s.fshp + 1;
    hide ForkPush, ForkPop;
    assert Peek(t.mem, s.fshp) == s.fsp;
    assert forall a :: l.shadow <= a < t.fshp ==> l.OnStacks(a);
    assert k > 0 ==> s1.fsp <= Peek(t.mem, u.fshp);
  }

  /** Over every legal run: the frame stack below the process's start and the shadow stack below
      its pointer are as they were, and the shadow pointer has moved by the leaked words. */
  lemma {:induction false} RunKeeps(l: Layout, lo: int, s: Image, run: Run)
    requires Placed(l, lo, s) && Legal(l, lo, s, run)
    ensures Keeps(l, lo, s, Exec(l, s, run), Leaks(run))
    decreases run
  {
    match run
    case Done =>
    case Write(a, v, rest) =>
      var t := s.(mem := s.mem[a := v]);
      RunKeeps(l, lo, t, rest);
      assert Keeps(l, lo, s, t, 0);
      KeepsTrans(l, lo, s, t, Exec(l, t, rest), 0, Leaks(rest));
    case Push(g, rest) =>
      var t := Pushed(l, s, g);
      PushedKeeps(l, lo, s, g);
      RunKeeps(l, lo, t, rest);
      KeepsTrans(l, lo, s, t, Exec(l, t, rest), 0, Leaks(rest));
    case Pop(g, rest) =>
      var t := Dropped(l, s, g);
      DroppedKeeps(l, lo, s, g);
      RunKeeps(l, lo, t, rest);
      KeepsTrans(l, lo, s, t, Exec(l, t, rest), 0, Leaks(rest));
    case Fork(f, child, pid, rest) =>
      ForkPushKeeps(l, lo, s, f);
      RunKeeps(l, ForkPush(l, s, f).fsp, ForkPush(l, s, f), child);
      var t := ForkPop(l, ChildDone(l, s, f, child), f, pid);
      ForkKeeps(l, lo, s, f, ChildDone(l, s, f, child), Leaks(child), pid);
      RunKeeps(l, lo, t, rest);
      KeepsTrans(l, lo, s, t, Exec(l, t, rest), Leaks(child), Leaks(rest));
    case Killed(f, child) =>
      ForkPushKeeps(l, lo, s, f);
      RunKeeps(l, ForkPush(l, s, f).fsp, ForkPush(l, s, f), child);
      ForkKeeps(l, lo, s, f, ChildDone(l, s, f, child), Leaks(child), 1);
  }

  // ----- what the parent finds -----

  /** Pointers, own frame, tail block and the saved activations below are as at the fork call. */
  ghost predicate Restored(l: Layout, f: int, s: Image, t: Image)
    requires l.Fn(f)
  {
    && t.fsp == s.fsp && t.fshp == s.fshp
    && SameWords(s.mem, l.frame[f], t.mem, l.frame[f], l.size[f]) && SameWords(s.mem, l.tail, t.mem, l.tail, l.tails)
    && forall a :: l.base <= a < s.fsp || l.shadow <= a < s.fshp ==> Peek(t.mem, a) == Peek(s.mem, a)
  }

  /** A block below the child's start is still there when the parent resumes. */
  lemma {:induction false} StillSaved(l: Layout, lo: int, s: Image, t: Image, k: nat, a: int, n: nat)
    requires Keeps(l, lo, s, t, k) && l.base <= a && a + n <= lo
    ensures SameWords(s.mem, a, t.mem, a, n)
  {
  }

  /** The frame and the tail block come back from the save area. */
  lemma {:induction false} ForkPopLoads(l: Layout, s: Image, f: int, pid: Word, fsp: int)
    requires l.Ok() && l.Fn(f) && f in l.frame && pid != 0 && fsp == Peek(s.mem, s.fshp - 1)
    requires l.base <= fsp && fsp + l.size[f] + l.tails <= l.limit
    ensures var t := ForkPop(l, s, f, pid);
            && SameWords(s.mem, fsp, t.mem, l.frame[f], l.size[f])
            && SameWords(s.mem, fsp + l.size[f], t.mem, l.tail, l.tails)
  {
    hide Copy, Moved, SameWords;
    var n := l.size[f];
    var m1 := Copy(s.mem, fsp, l.frame[f], n);
    var m2 := Copy(m1, fsp + n, l.tail, l.tails);
    CopyOff(l, s.mem, fsp, l.frame[f], n);
    CopyOff(l, m1, fsp + n, l.tail, l.tails);
    OffOn(l, l.frame[f], n, fsp + n, l.tails);
    TwoMoved(l, s.mem, m1, m2, fsp, l.frame[f], n, fsp + n, l.tail, l.tails);
  }

  /** The frame and tail block across the whole fork, when nothing leaked. */
  lemma {:induction false} ForkReturns(l: Layout, lo: int, s: Image, f: int, t: Image, pid: Word)
    requires Placed(l, lo, s) && l.Fn(f) && ForkFits(l, s, f) && pid != 0
    requires Keeps(l, ForkPush(l, s, f).fsp, ForkPush(l, s, f), t, 0)
    ensures var u := ForkPop(l, t, f, pid);
            SameWords(s.mem, l.frame[f], u.mem, l.frame[f], l.size[f])
                && SameWords(s.mem, l.tail, u.mem, l.tail, l.tails)
  {
    hide Copy, SameWords;
    var s1, u, n := ForkPush(l, s, f), ForkPop(l, t, f, pid), l.size[f];
    ForkPushSaves(l, lo, s, f);
    ForkPushWords(l, lo, s, f);
    StillSaved(l, s1.fsp, s1, t, 0, s.fsp, n);
    StillSaved(l, s1.fsp, s1, t, 0, s.fsp + n, l.tails);
    assert t.fshp == s1.fshp == s.fshp + 1;
    assert Peek(t.mem, s.fshp) == s.fsp;
    ForkPopLoads(l, t, f, pid, s.fsp);
    hide ForkPush, ForkPop;
    SameVia(s.mem, s1.mem, t.mem, l.frame[f], s.fsp, s.fsp, n);
    SameVia(s.mem, t.mem, u.mem, l.frame[f], s.fsp, l.frame[f], n);
    SameVia(s.mem, s1.mem, t.mem, l.tail, s.fsp + n, s.fsp + n, l.tails);
    SameVia(s.mem, t.mem, u.mem, l.tail, s.fsp + n, l.tail, l.tails);
  }

  /** For every legal child: the parent finds everything as at its fork call exactly when no
      descendant was killed while suspended in a fork of its own. */
  lemma {:induction false} ForkRestores(l: Layout, lo: int, s: Image, f: int, child: Run, pid: Word)
    requires Placed(l, lo, s) && l.Fn(f) && ForkFits(l, s, f) && pid != 0
    requires Legal(l, ForkPush(l, s, f).fsp, ForkPush(l, s, f), child)
    ensures Restored(l, f, s, ForkPop(l, ChildDone(l, s, f, child), f, pid)) <==> Leaks(child) == 0
  {
    var s1, t := ForkPush(l, s, f), ChildDone(l, s, f, child);
    ForkPushKeeps(l, lo, s, f);
    RunKeeps(l, s1.fsp, s1, child);
    ForkPushKeeps(l, s.fsp, s, f);
    ForkKeeps(l, s.fsp, s, f, t, Leaks(child), pid);
    if Leaks(child) == 0 { ForkReturns(l, lo, s, f, t, pid); }
  }

  /** The same at every fork of a run, however deep. */
  ghost predicate Resumes(l: Layout, s: Image, run: Run)
    requires Named(l, run)
    decreases run
  {
    match run
    case Done => true
    case Write(a, v, rest) => Resumes(l, s.(mem := s.mem[a := v]), rest)
    case Push(g, rest) => Resumes(l, Pushed(l, s, g), rest)
    case Pop(g, rest) => Resumes(l, Dropped(l, s, g), rest)
    case Fork(f, child, pid, rest) =>
      var t := ForkPop(l, ChildDone(l, s, f, child), f, pid);
      && (Restored(l, f, s, t) <==> Leaks(child) == 0)
      && Resumes(l, ForkPush(l, s, f), child) && Resumes(l, t, rest)
    case Killed(f, child) => Resumes(l, ForkPush(l, s, f), child)
  }

  lemma {:induction false} EveryParentResumes(l: Layout, lo: int, s: Image, run: Run)
    requires Placed(l, lo, s) && Legal(l, lo, s, run)
    ensures Resumes(l, s, run)
    decreases run
  {
    match run
    case Done =>
    case Write(a, v, rest) => EveryParentResumes(l, lo, s.(mem := s.mem[a := v]), rest);
    case Push(g, rest) =>
      PushedKeeps(l, lo, s, g);
      EveryParentResumes(l, lo, Pushed(l, s, g), rest);
    case Pop(g, rest) =>
      DroppedKeeps(l, lo, s, g);
      EveryParentResumes(l, lo, Dropped(l, s, g), rest);
    case Fork(f, child, pid, rest) =>
      ForkPushKeeps(l, lo, s, f);
      EveryParentResumes(l, ForkPush(l, s, f).fsp, ForkPush(l, s, f), child);
      RunKeeps(l, ForkPush(l, s, f).fsp, ForkPush(l, s, f), child);
      ForkKeeps(l, lo, s, f, ChildDone(l, s, f, child), Leaks(child), pid);
      ForkRestores(l, lo, s, f, child, pid);
      EveryParentResumes(l, lo, ForkPop(l, ChildDone(l, s, f, child), f, pid), rest);
    case Killed(f, child) =>
      ForkPushKeeps(l, lo, s, f);
      EveryParentResumes(l, ForkPush(l, s, f).fsp, ForkPush(l, s, f), child);
  }

  /** The leak at its smallest: a child killed inside its own fork leaves one shadow word, and the
      parent resumes on the child's frame-stack pointer. */
  lemma LeakedSlot()
    ensures exists l: Layout, s: Image, child: Run ::
              && l.Fn(0) && Placed(l, s.fsp, s) && ForkFits(l, s, 0)
              && Legal(l, ForkPush(l, s, 0).fsp, ForkPush(l, s, 0), child)
              && !Restored(l, 0, s, ForkPop(l, ChildDone(l, s, 0, child), 0, 1))
  {
    var l := Layout(map[0 := 0], map[0 := 1], 1, 0, 10, 20, 30, 34);
    var s, child := Image(map[], 10, 30), Killed(0, Done);
    assert l.Ok();
    assert ForkPush(l, s, 0).fsp == 11 && ForkPush(l, s, 0).fshp == 31;
    ForkRestores(l, 10, s, 0, child, 1);
  }
}
