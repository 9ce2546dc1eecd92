/** A burst of words on the sole ready channel against the same number of single cycles. */
module Bursts {
  import opened Words
  import opened Core
  import opened Chip

  // ----- quiet time -----

  function Grow(t: Timer, n: nat): Timer {
    if t.Active() then Timer(t.reg, t.acc + n * t.X()) else t
  }

  function Grown(ts: seq<Timer>, n: nat): (r: seq<Timer>)
    requires |ts| == 4
    ensures |r| == 4 && forall i :: 0 <= i < 4 ==> r[i] == Grow(ts[i], n)
  {
    [Grow(ts[0], n), Grow(ts[1], n), Grow(ts[2], n), Grow(ts[3], n)]
  }

  /** No timer pulses within the next n cycles. */
  ghost predicate QuietFor(d: Dma, n: nat)
    requires d.Ok()
  {
    n > 0 ==> forall t :: 0 <= t < 4 && d.timers[t].Active() ==> d.timers[t].acc + n * d.timers[t].X() < d.timers[t].Y()
  }

  lemma {:induction false} QuietTick(d: Dma, n: nat)
    requires d.Ok() && n <= 4 && QuietFor(d, 1)
    ensures Tick(d, n).ch == d.ch && Tick(d, n).intr == d.intr
    ensures forall t :: 0 <= t < 4 ==> Tick(d, n).timers[t] == if t < n then Grow(d.timers[t], 1) else d.timers[t]
  {
    hide Decode;
    if n > 0 {
      QuietTick(d, n - 1);
      var t := d.timers[n - 1];
      if t.Active() {
        Small(t.acc + t.X(), t.Y());
      }
    }
  }

  lemma Small(a: int, y: int)
    requires 0 <= a < y
    ensures a / y == 0 && a % y == a
  {
  }

  lemma QuietAll(d: Dma)
    requires d.Ok() && QuietFor(d, 1)
    ensures Tick(d, 4) == d.(timers := Grown(d.timers, 1))
  {
    hide Tick, Grow;
    QuietTick(d, 4);
    assert Tick(d, 4).timers == Grown(d.timers, 1);
  }

  lemma GrowTwice(ts: seq<Timer>, a: nat, b: nat)
    requires |ts| == 4
    ensures Grown(Grown(ts, a), b) == Grown(ts, a + b)
  {
    hide Grow;
    forall i | 0 <= i < 4 ensures Grow(Grow(ts[i], a), b) == Grow(ts[i], a + b) {
      GrowAgain(ts[i], a, b);
    }
  }

  lemma GrowAgain(t: Timer, a: nat, b: nat)
    ensures Grow(Grow(t, a), b) == Grow(t, a + b)
  {
    var x := t.X();
    assert Grow(t, a).X() == x && Grow(t, a).Y() == t.Y();
    hide Timer.X, Timer.Y;
    assert a * x + b * x == (a + b) * x;
  }

  lemma QuietLess(d: Dma, a: nat, b: nat)
    requires d.Ok() && QuietFor(d, a + b)
    ensures QuietFor(d, a)
    ensures QuietFor(d.(timers := Grown(d.timers, a)), b)
  {
    forall i | 0 <= i < 4 && d.timers[i].Active() && a + b > 0
      ensures d.timers[i].acc + a * d.timers[i].X() < d.timers[i].Y()
      ensures Grow(d.timers[i], a).acc + b * d.timers[i].X() < d.timers[i].Y()
    {
      var x := d.timers[i].X();
      assert (a + b) * x == a * x + b * x;
      assert b * x >= 0;
    }
  }

  // ----- one plain word -----

  /** The channel may run without the per-word path: alone, unpaced, counting, unobserved. */
  predicate Eligible(d: Dma, i: int)
    requires d.Ok() && 0 <= i < SLOTS
  {
    var c, f := d.ch[i], Decode(d.v, d.ch[i].ctrl);
    && d.Ready() == {i} && f.treq == PERMANENT && c.mode != ENDLESS && !f.sniffEn && f.ringR == 0 && f.ringW == 0
    && f.sizeLog != 3 && c.remaining > 0
  }

  predicate PlainAt(v: Variant, a: Word, size: int)
    requires size > 0
  {
    a % size == 0 && InSram(v, a, size)
  }

  function Moves(mem: map<int, Word>, ra: Word, wa: Word, size: int, swap: bool): map<int, Word>
    requires (size == 1 || size == 2 || size == 4) && ra % size == 0 && wa % size == 0
  {
    AlignedFits(ra, size); AlignedFits(wa, size);
    var x := Words.Field(Peek(mem, ra / 4), ra % 4, size);
    var x := if swap then Words.Bswap(x, size) else x;
    mem[wa / 4 := PutField(Peek(mem, wa / 4), wa % 4, size, x)]
  }

  /** Both ends of channel i are plain memory. */
  predicate PlainEnds(m: Machine, i: int)
    requires m.Ok() && 0 <= i < SLOTS
  {
    var c, s := m.dma.ch[i], Size(Decode(m.dma.v, m.dma.ch[i].ctrl).sizeLog);
    PlainAt(m.dma.v, c.readAddr, s) && PlainAt(m.dma.v, c.writeAddr, s)
  }

  /** Channel i after one word: addresses advanced, count down by one. */
  function Stepped(v: Variant, c: Chan): Chan {
    var f := Decode(v, c.ctrl);
    c.(readAddr := Add(c.readAddr, f.strideR), writeAddr := Add(c.writeAddr, f.strideW),
       remaining := if c.remaining > 0 then c.remaining - 1 else 0)
  }

  /** One word moved, before any completion. */
  function OneWord(m: Machine, i: int): (r: Machine)
    requires m.Ok() && 0 <= i < SLOTS && PlainEnds(m, i) && Decode(m.dma.v, m.dma.ch[i].ctrl).sizeLog != 3
    ensures r.Ok()
  {
    var c := m.dma.ch[i];
    var f := Decode(m.dma.v, c.ctrl);
    m.(dma := m.dma.(ch := m.dma.ch[i := Stepped(m.dma.v, c)]),
       mem := Moves(m.mem, c.readAddr, c.writeAddr, Size(f.sizeLog), f.bswap))
  }

  function Finished(m: Machine, i: int): Machine
    requires m.Ok() && 0 <= i < SLOTS
  {
    if m.dma.ch[i].remaining == 0 && m.dma.ch[i].busy then m.(dma := Complete(m.dma, i, 0)) else m
  }

  /** The transfer path moves one word and completes the sequence when it was the last. */
  lemma PlainTransfer(m: Machine, i: int)
    requires m.Ok() && 0 <= i < SLOTS && Eligible(m.dma, i) && PlainEnds(m, i)
    ensures Transfer(m, i) == Done(Finished(OneWord(m, i), i))
  {
    hide Complete, Moves, Decode, Flag;
    var c := m.dma.ch[i];
    var f := Decode(m.dma.v, c.ctrl);
    var s := Size(f.sizeLog);
    hide BusRead, BusWrite;
    PlainBus(m, c.readAddr, c.writeAddr, s, f.bswap);
    NotRegister(m.dma.v, c.writeAddr, s, i);
    var m1 := m.(mem := Moves(m.mem, c.readAddr, c.writeAddr, s, f.bswap));
    assert m.(dma := m.dma) == m;
    assert Moved(c, f) == c.(readAddr := Add(c.readAddr, f.strideR), writeAddr := Add(c.writeAddr, f.strideW));
    var d := m.dma.(ch := m.dma.ch[i := Moved(c, f)]);
    assert d.ch[i := Stepped(m.dma.v, c)] == m.dma.ch[i := Stepped(m.dma.v, c)];
  }

  lemma PlainBus(m: Machine, ra: Word, wa: Word, s: int, swap: bool)
    requires m.Ok() && (s == 1 || s == 2 || s == 4) && PlainAt(m.dma.v, ra, s) && PlainAt(m.dma.v, wa, s)
    ensures BusRead(m, ra, s).Done?
    ensures BusWrite(m, wa, if swap then Words.Bswap(BusRead(m, ra, s).value, s) else BusRead(m, ra, s).value, s) ==
            Done(m.(mem := Moves(m.mem, ra, wa, s, swap)))
  {
    hide PutField, Words.Field, Words.Bswap;
  }

  lemma NotRegister(v: Variant, wa: Word, s: int, i: int)
    requires s > 0 && PlainAt(v, wa, s) && 0 <= i < SLOTS
    ensures wa - DMA - i * STRIDE < 0
  {
  }

  // ----- many words -----

  /** Both ends stay in plain memory for k words. */
  ghost predicate Clear(m: Machine, i: int, k: nat)
    requires m.Ok() && 0 <= i < SLOTS
    decreases k
  {
    Decode(m.dma.v, m.dma.ch[i].ctrl).sizeLog != 3 &&
    (k > 0 ==> PlainEnds(m, i) && Clear(OneWord(m, i), i, k - 1))
  }

  function ManyWords(m: Machine, i: int, k: nat): (r: Machine)
    requires m.Ok() && 0 <= i < SLOTS && Clear(m, i, k)
    ensures r.Ok()
    decreases k
  {
    if k == 0 then m else ManyWords(OneWord(m, i), i, k - 1)
  }

  /** k words, each on its own quiet cycle after the first. */
  ghost function Elapsed(m: Machine, k: nat): (r: Machine)
    requires m.Ok()
    ensures r.Ok()
  {
    m.(dma := m.dma.(timers := Grown(m.dma.timers, k)), cycle := m.cycle + k)
  }

  /** A quiet cycle on which channel i alone is ready is a transfer on it. */
  lemma QuietStep(m: Machine, i: int)
    requires m.Ok() && 0 <= i < SLOTS && m.last == i && QuietFor(m.dma, 1) && m.dma.Ready() == {i}
    ensures Step(m) == Transfer(Elapsed(m, 1), i)
  {
    hide Transfer, CanRun;
    QuietAll(m.dma);
    var d := Tick(m.dma, 4);
    assert d.Ready() == m.dma.Ready();
    assert Favoured(d) == {i};
    SomeReady(d);
  }

  /** Moving words and letting quiet time pass commute. */
  lemma ElapsedWord(m: Machine, i: int, k: nat)
    requires m.Ok() && 0 <= i < SLOTS && PlainEnds(m, i) && Decode(m.dma.v, m.dma.ch[i].ctrl).sizeLog != 3
    ensures PlainEnds(Elapsed(m, k), i) && OneWord(Elapsed(m, k), i) == Elapsed(OneWord(m, i), k)
    ensures Finished(OneWord(Elapsed(m, k), i), i).mem == OneWord(m, i).mem
  {
    hide Moves, Decode, Complete;
  }

  lemma StillEligible(m: Machine, i: int)
    requires m.Ok() && 0 <= i < SLOTS && Eligible(m.dma, i) && PlainEnds(m, i) && m.dma.ch[i].remaining > 1
    ensures Eligible(OneWord(m, i).dma, i) && Finished(OneWord(m, i), i) == OneWord(m, i)
  {
    hide Moves, Decode, Flag;
    var m' := OneWord(m, i);
    assert CanRun(m.dma.v, m.dma.ch[i]) by { assert i in m.dma.Ready(); }
    forall j | 0 <= j < SLOTS ensures CanRun(m.dma.v, m'.dma.ch[j]) == CanRun(m.dma.v, m.dma.ch[j]) {
    }
    assert m'.dma.Ready() == m.dma.Ready();
  }

  lemma ElapsedReady(m: Machine, i: int, k: nat)
    requires m.Ok() && 0 <= i < SLOTS && Eligible(m.dma, i)
    ensures Eligible(Elapsed(m, k).dma, i)
  {
    hide CanRun;
    assert Elapsed(m, k).dma.Ready() == m.dma.Ready();
  }

  /** Transferring one word and then stepping through k - 1 more quiet cycles moves k words in
      order; the last one completes the sequence if the count runs out. */
  lemma {:induction false} BurstIsSteps(m: Machine, i: int, k: nat)
    requires m.Ok() && 0 <= i < SLOTS && m.last == i && Eligible(m.dma, i)
    requires 1 <= k <= m.dma.ch[i].remaining && Clear(m, i, k) && QuietFor(m.dma, k - 1)
    ensures Transfer(m, i).Done?
    ensures Steps(Transfer(m, i).value, k - 1) == Done(Finished(Elapsed(ManyWords(m, i, k), k - 1), i))
    decreases k
  {
    hide Transfer, Eligible, PlainEnds, OneWord, Grown, Complete, QuietFor, Step;
    PlainTransfer(m, i);
    var m1 := OneWord(m, i);
    if k == 1 {
      OneManyWord(m, i);
      ZeroElapsed(m1);
    } else {
      WordKeeps(m, i);
      StillEligible(m, i);
      var m2 := Elapsed(m1, 1);
      QuietNext(m, m1, k);
      EligibleReady(m1.dma, i);
      QuietStep(m1, i);
      ElapsedReady(m1, i, 1);
      ElapsedClear(m1, i, k - 1, 1);
      BurstIsSteps(m2, i, k - 1);
      StepsFront(m1, k - 1);
      ElapsedMany(m1, i, k - 1, 1);
      ElapsedTwice(ManyWords(m1, i, k - 1), 1, k - 2);
    }
  }

  lemma QuietNext(m: Machine, m1: Machine, k: nat)
    requires m.Ok() && m1.Ok() && m1.dma.timers == m.dma.timers && k >= 2 && QuietFor(m.dma, k - 1)
    ensures QuietFor(m1.dma, 1) && QuietFor(Elapsed(m1, 1).dma, k - 2)
  {
    QuietLess(m.dma, 1, k - 2);
  }

  lemma OneManyWord(m: Machine, i: int)
    requires m.Ok() && 0 <= i < SLOTS && Clear(m, i, 1)
    ensures ManyWords(m, i, 1) == OneWord(m, i)
  {
    hide OneWord;
    assert ManyWords(OneWord(m, i), i, 0) == OneWord(m, i);
  }

  lemma ZeroElapsed(m: Machine)
    requires m.Ok()
    ensures Elapsed(m, 0) == m
  {
    forall t | 0 <= t < 4 ensures Grow(m.dma.timers[t], 0) == m.dma.timers[t] {
      assert 0 * m.dma.timers[t].X() == 0;
    }
    assert Grown(m.dma.timers, 0) == m.dma.timers;
  }

  lemma WordKeeps(m: Machine, i: int)
    requires m.Ok() && 0 <= i < SLOTS && PlainEnds(m, i) && Decode(m.dma.v, m.dma.ch[i].ctrl).sizeLog != 3
    ensures var r := OneWord(m, i);
            r.last == m.last && r.dma.timers == m.dma.timers && r.dma.v == m.dma.v &&
            r.dma.ch[i].remaining == if m.dma.ch[i].remaining > 0 then m.dma.ch[i].remaining - 1 else 0
  {
    hide Moves, Decode;
  }

  lemma EligibleReady(d: Dma, i: int)
    requires d.Ok() && 0 <= i < SLOTS && Eligible(d, i)
    ensures d.Ready() == {i}
  {
  }

  lemma ElapsedTwice(m: Machine, a: nat, b: nat)
    requires m.Ok()
    ensures Elapsed(Elapsed(m, a), b) == Elapsed(m, a + b)
  {
    hide Grown;
    GrowTwice(m.dma.timers, a, b);
  }

  lemma {:induction false} ElapsedClear(m: Machine, i: int, k: nat, n: nat)
    requires m.Ok() && 0 <= i < SLOTS && Clear(m, i, k)
    ensures Clear(Elapsed(m, n), i, k)
    decreases k
  {
    hide OneWord, Decode, PlainEnds;
    if k > 0 {
      ElapsedWord(m, i, n);
      ElapsedClear(OneWord(m, i), i, k - 1, n);
    }
  }

  lemma {:induction false} ElapsedMany(m: Machine, i: int, k: nat, n: nat)
    requires m.Ok() && 0 <= i < SLOTS && Clear(m, i, k)
    ensures Clear(Elapsed(m, n), i, k) && ManyWords(Elapsed(m, n), i, k) == Elapsed(ManyWords(m, i, k), n)
    decreases k
  {
    hide OneWord, Decode, PlainEnds;
    ElapsedClear(m, i, k, n);
    if k > 0 {
      ElapsedWord(m, i, n);
      ElapsedMany(OneWord(m, i), i, k - 1, n);
    }
  }

  /** With no channel ready and no pulse due, time can jump. */
  lemma {:induction false} IdleJump(m: Machine, n: nat)
    requires m.Ok() && m.dma.Ready() == {} && QuietFor(m.dma, n)
    ensures Steps(m, n) == Done(Elapsed(m, n))
    decreases n
  {
    hide CanRun;
    if n == 0 {
      ZeroElapsed(m);
    } else {
      QuietLess(m.dma, 1, n - 1);
      QuietAll(m.dma);
      var m1 := Elapsed(m, 1);
      assert Tick(m.dma, 4).Ready() == m.dma.Ready();
      assert Step(m) == Done(m1);
      hide Step, Tick;
      IdleJump(m1, n - 1);
      StepsFront(m, n);
      ElapsedTwice(m, 1, n - 1);
    }
  }

  // ----- windows -----

  /** The room a plain-memory window leaves along a stride. */
  predicate Room(v: Variant, a: Word, stride: Word, size: int, k: nat) {
    && (stride == size ==> a + k * size <= SRAM + v.SramSize())
    && (stride == M32 - size ==> a - (k - 1) * size >= SRAM)
  }

  lemma StrideCases(v: Variant, ctrl: Word)
    ensures var f := Decode(v, ctrl); var s := Size(f.sizeLog);
            (f.strideR == 0 || f.strideR == s || f.strideR == M32 - s)
                && (f.strideW == 0 || f.strideW == s || f.strideW == M32 - s)
  {
  }

  lemma RoomStep(v: Variant, a: Word, stride: Word, size: int, k: nat)
    requires (size == 1 || size == 2 || size == 4) && (stride == 0 || stride == size || stride == M32 - size)
    requires PlainAt(v, a, size) && Room(v, a, stride, size, k) && k >= 2
    ensures PlainAt(v, Add(a, stride), size) && Room(v, Add(a, stride), stride, size, k - 1)
  {
    if size == 1 {} else if size == 2 {} else {}
  }

  /** A burst capped to both windows stays in plain memory. */
  lemma {:induction false} RoomClear(m: Machine, i: int, k: nat)
    requires m.Ok() && 0 <= i < SLOTS && PlainEnds(m, i)
    requires var c, f := m.dma.ch[i], Decode(m.dma.v, m.dma.ch[i].ctrl);
             f.sizeLog != 3 && Room(m.dma.v, c.readAddr, f.strideR, Size(f.sizeLog), k) &&
             Room(m.dma.v, c.writeAddr, f.strideW, Size(f.sizeLog), k)
    ensures Clear(m, i, k)
    decreases k
  {
    var c, f := m.dma.ch[i], Decode(m.dma.v, m.dma.ch[i].ctrl);
    StrideCases(m.dma.v, c.ctrl);
    hide Decode, Room, PlainAt, Moves;
    if k >= 2 {
      RoomStep(m.dma.v, c.readAddr, f.strideR, Size(f.sizeLog), k);
      RoomStep(m.dma.v, c.writeAddr, f.strideW, Size(f.sizeLog), k);
      RoomClear(OneWord(m, i), i, k - 1);
    } else if k == 1 {
      assert Clear(OneWord(m, i), i, 0);
    }
  }
}
