/** The register file by address (host/emu/variant.go, host/emu/dma.go): where every CTRL bit and every
    register of the two chips is, and the rate of the pacing timers. */
module Registers {
  import opened Words
  import opened Core
  import opened Chip
  import opened Credits

  // ----- CTRL words -----

  /** How an address steps: not at all, up, or down where the chip has the bit for it. */
  function Strided(on: bool, back: bool, sizeLog: int): Word
    requires 0 <= sizeLog <= 3
  {
    var size := if sizeLog == 0 then 1 else if sizeLog == 1 then 2 else if sizeLog == 2 then 4 else 8;
    if !on then 0 else if back then 0x1_0000_0000 - size else size
  }

  lemma CtrlBits40(w: Word)
    ensures var f := Decode(Rp2040, w);
            && (f.en <==> w % 2 == 1) && (f.hp <==> w / 2 % 2 == 1) && f.sizeLog == w / 4 % 4
            && f.strideR == Strided(w / 0x10 % 2 == 1, false, w / 4 % 4)
            && f.strideW == Strided(w / 0x20 % 2 == 1, false, w / 4 % 4)
            && (w / 0x40 % 16 == 0 ==> f.ringR == 0 && f.ringW == 0)
            && (w / 0x40 % 16 > 0 ==> f.ringR == (if w / 0x400 % 2 == 0 then Pow2(w / 0x40 % 16) else 0)
                                      && f.ringW == (if w / 0x400 % 2 == 1 then Pow2(w / 0x40 % 16) else 0))
            && f.chainTo == w / 0x800 % 16 && f.treq == w / 0x8000 % 64
            && (f.quiet <==> w / 0x20_0000 % 2 == 1) && (f.bswap <==> w / 0x40_0000 % 2 == 1)
            && (f.sniffEn <==> w / 0x80_0000 % 2 == 1)
  {
    hide Pow2;
  }

  lemma CtrlBits50(w: Word)
    ensures var f := Decode(Rp2350, w);
            && (f.en <==> w % 2 == 1) && (f.hp <==> w / 2 % 2 == 1) && f.sizeLog == w / 4 % 4
            && f.strideR == Strided(w / 0x10 % 2 == 1, w / 0x20 % 2 == 1, w / 4 % 4)
            && f.strideW == Strided(w / 0x40 % 2 == 1, w / 0x80 % 2 == 1, w / 4 % 4)
            && (w / 0x100 % 16 == 0 ==> f.ringR == 0 && f.ringW == 0)
            && (w / 0x100 % 16 > 0 ==> f.ringR == (if w / 0x1000 % 2 == 0 then Pow2(w / 0x100 % 16) else 0)
                                       && f.ringW == (if w / 0x1000 % 2 == 1 then Pow2(w / 0x100 % 16) else 0))
            && f.chainTo == w / 0x2000 % 16 && f.treq == w / 0x2_0000 % 64
            && (f.quiet <==> w / 0x80_0000 % 2 == 1) && (f.bswap <==> w / 0x100_0000 % 2 == 1)
            && (f.sniffEn <==> w / 0x200_0000 % 2 == 1)
  {
    hide Pow2;
  }

  // ----- addresses -----

  lemma RowOf(i: int, r: int)
    requires 0 <= i && 0 <= r < 0x40
    ensures (0x40 * i + r) / 0x40 == i && (0x40 * i + r) % 0x40 == r
  {
  }

  /** Each of a channel's four rows shows the same four registers; CTRL reads with the busy bit. */
  lemma ChannelReads(d: Dma, i: int, r: int)
    requires d.Ok() && 0 <= i < (if d.v == Rp2040 then 12 else 16) && 0 <= r < 0x40
    ensures r in {0x00, 0x14, 0x28, 0x3C} ==> RegRead(d, 0x40 * i + r) == d.ch[i].readAddr
    ensures r in {0x04, 0x18, 0x2C, 0x34} ==> RegRead(d, 0x40 * i + r) == d.ch[i].writeAddr
    ensures r in {0x08, 0x1C, 0x24, 0x38} ==> RegRead(d, 0x40 * i + r) == d.ch[i].remaining
    ensures r in {0x0C, 0x10, 0x20, 0x30} ==>
              var busy := if d.v == Rp2040 then 0x100_0000 else 0x400_0000;
              RegRead(d, 0x40 * i + r) == if d.ch[i].busy && d.ch[i].ctrl / busy % 2 == 0
                                          then (d.ch[i].ctrl + busy) % 0x1_0000_0000 else d.ch[i].ctrl
  {
    RowOf(i, r);
  }

  /** Writing a register of a row that does not trigger changes that register and nothing else. */
  lemma ChannelWrites(d: Dma, i: int, r: int, x: Word, nonzero: bool)
    requires d.Ok() && 0 <= i < (if d.v == Rp2040 then 12 else 16) && 0 <= r < 0x40
    ensures var c, e := d.ch[i], RegWrite(d, 0x40 * i + r, x, nonzero);
            && (r in {0x00, 0x14, 0x28} ==> e == d.(ch := d.ch[i := c.(readAddr := x)]))
            && (r in {0x04, 0x18, 0x34} ==> e == d.(ch := d.ch[i := c.(writeAddr := x)]))
            && (r in {0x08, 0x24, 0x38} ==> e == d.(ch := d.ch[i := c.(reload := x)]))
            && (r in {0x10, 0x20, 0x30} && x / (if d.v == Rp2040 then 0x100_0000 else 0x400_0000) % 2 == 0 ==>
                  e == d.(ch := d.ch[i := c.(ctrl := x)]))
  {
    RowOf(i, r);
  }

  /** The first register behind the channels; the RP2350 has it 32 bytes further on. */
  function Behind(v: Variant): int {
    if v == Rp2040 then 0x420 else 0x440
  }

  lemma TimerRegs(d: Dma, t: int, x: Word, nonzero: bool)
    requires d.Ok() && 0 <= t < 4
    ensures RegRead(d, Behind(d.v) + 4 * t) == d.timers[t].reg
    ensures RegWrite(d, Behind(d.v) + 4 * t, x, nonzero) == d.(timers := d.timers[t := d.timers[t].(reg := x)])
  {
    hide MultiTrigger, Abort, ChanWrite;
  }

  lemma GlobalReads(d: Dma)
    requires d.Ok()
    ensures var o := Behind(d.v);
            && RegRead(d, o + 0x14) == d.sctl && RegRead(d, o + 0x28) == (if d.v == Rp2040 then 12 else 16)
            && (d.sctl / 0x400 % 4 == 0 ==> RegRead(d, o + 0x18) == d.sdata)
            && (d.sctl / 0x400 % 4 == 1 ==> RegRead(d, o + 0x18) == Rev32(d.sdata))
            && (d.sctl / 0x400 % 4 == 2 ==> RegRead(d, o + 0x18) == 0xFFFF_FFFF - d.sdata)
  {
    hide Rev32;
    SniffOutBits(d.sctl);
  }

  lemma SniffOutBits(w: Word)
    ensures w / 0x400 % 4 == w / 0x400 % 2 + 2 * (w / 0x800 % 2)
  {
    assert w / 0x800 == w / 0x400 / 2;
  }

  lemma GlobalWrites(d: Dma, x: Word, nonzero: bool)
    requires d.Ok()
    ensures var o, n := Behind(d.v), if d.v == Rp2040 then 12 else 16;
            && RegWrite(d, o + 0x10, x, nonzero) == MultiTrigger(d, x, n)
            && RegWrite(d, o + 0x14, x, nonzero) == d.(sctl := x)
            && RegWrite(d, o + 0x18, x, nonzero) == d.(sdata := x)
            && RegWrite(d, o + 0x24, x, nonzero) == Abort(d, x, n)
  {
    hide MultiTrigger, Abort, ChanWrite;
  }

  /** RAM and the registers on the bus: a word written is the word read back, and the three atomic
      aliases of a register toggle, set and clear its bits. */
  lemma BusExact(m: Machine, a: Word, off: int, x: Word)
    requires m.Ok() && a % 4 == 0 && 0 <= off < 0x1000 && off % 4 == 0
    requires 0x2000_0000 <= a && a + 4 <= (if m.dma.v == Rp2040 then 0x2004_2000 else 0x2008_2000)
    ensures BusWrite(m, a, x, 4) == Done(m.(mem := m.mem[a / 4 := x]))
    ensures BusRead(m.(mem := m.mem[a / 4 := x]), a, 4) == Done(x)
    ensures BusRead(m, 0x5000_0000 + off, 4) == Done(RegRead(m.dma, off))
    ensures forall op :: 0 <= op < 4 ==>
                           var cur := RegRead(m.dma, off);
                           var y := if op == 0 then x else if op == 1 then XorW(cur, x) else if op == 2 then OrW(cur, x)
                                    else AndNotW(cur, x);
                           BusWrite(m, 0x5000_0000 + 0x1000 * op + off, x, 4)
                           == Done(m.(dma := RegWrite(m.dma, off, y, x != 0)))
  {
    hide RegRead, RegWrite, XorW, OrW, AndNotW, PutField, Words.Field;
    WholeWord(Peek(m.mem, a / 4), x);
    assert a % 4 == 0 && Peek(m.mem[a / 4 := x], a / 4) == x;
    forall op | 0 <= op < 4
      ensures (0x1000 * op + off) / 0x1000 == op && (0x1000 * op + off) % 0x1000 == off
    {
    }
  }

  /** An access faults exactly when it is misaligned or neither in RAM nor in the registers. */
  lemma FaultExact(m: Machine, a: Word, x: Word, size: int)
    requires m.Ok() && size in {1, 2, 4}
    ensures var top := if m.dma.v == Rp2040 then 0x2004_2000 else 0x2008_2000;
            var ok := a % size == 0
                      && ((0x2000_0000 <= a && a + size <= top) || 0x5000_0000 <= a < 0x5000_4000);
            (BusRead(m, a, size).Done? <==> ok) && (BusWrite(m, a, x, size).Done? <==> ok)
  {
    hide RegRead, RegWrite, Alias, PutField, Words.Field;
  }

  lemma WholeWord(w: Word, x: Word)
    ensures PutField(w, 0, 4, x) == x && Words.Field(x, 0, 4) == x
  {
    assert x / 1 == x;
  }

  // ----- pacing -----

  /** n cycles of a timer, and the pulses it gives in them. */
  function Later(t: Timer, n: nat): (r: Timer)
    requires t.Active()
    ensures r.reg == t.reg
  {
    if n == 0 then t else TickAcc(Later(t, n - 1))
  }

  function Given(t: Timer, n: nat): nat
    requires t.Active()
  {
    if n == 0 then 0 else Given(t, n - 1) + TickPulses(Later(t, n - 1))
  }

  /** A timer set to X/Y pulses X times in Y cycles, to the last fraction. */
  lemma {:induction false} RateExact(t: Timer, n: nat)
    requires t.Active() && t.acc < t.reg % 0x1_0000
    ensures var x, y := t.reg / 0x1_0000, t.reg % 0x1_0000;
            Given(t, n) == (t.acc + n * x) / y && Later(t, n).acc == (t.acc + n * x) % y
    decreases n
  {
    hide TickAcc, TickPulses;
    var x: int := t.reg / 0x1_0000;
    if n > 0 {
      RateExact(t, n - 1);
      RateStep(Later(t, n - 1), t.acc + (n - 1) * x);
      OneMore(t.acc, n, x);
    } else {
      Under(t.acc, t.reg % 0x1_0000);
    }
  }

  lemma OneMore(a: int, n: nat, x: int)
    ensures a + n * x == a + (n - 1) * x + x
  {
  }

  lemma RateStep(t: Timer, s: int)
    requires t.Active() && t.acc == s % (t.reg % 0x1_0000)
    ensures var x, y := t.reg / 0x1_0000, t.reg % 0x1_0000;
            TickPulses(t) == (s + x) / y - s / y && TickAcc(t).acc == (s + x) % y
  {
    Carry(s, t.reg / 0x1_0000, t.reg % 0x1_0000);
  }

  lemma Carry(s: int, x: int, y: int)
    requires y > 0
    ensures (s + x) / y == s / y + (s % y + x) / y && (s + x) % y == (s % y + x) % y
  {
    var q, r := s / y, s % y;
    var p, u := (r + x) / y, (r + x) % y;
    assert s + x == q * y + p * y + u;
    Quotient(s + x, y, q + p, u);
  }

  lemma Quotient(s: int, y: int, q: int, r: int)
    requires y > 0 && s == q * y + r && 0 <= r < y
    ensures s / y == q && s % y == r
  {
    var d := s / y - q;
    assert d * y == r - s % y;
    assert d >= 1 ==> d * y >= y;
    assert d <= -1 ==> d * y <= -y;
  }

  lemma Under(a: int, y: int)
    requires 0 <= a < y
    ensures (a + 0) / y == 0 && (a + 0) % y == a
  {
  }

  /** DREQ 0x3B to 0x3E are the four timers, and 0x3F paces nothing. */
  lemma {:induction false} PacedBy(d: Dma, i: int)
    requires d.Ok() && 0 <= i < 16
    ensures var q, e := Treq(d, i), Tick(d, 4);
            && (0x3B <= q <= 0x3E && d.timers[q - 0x3B].Active() ==>
                  e.ch[i].credit == Banked(d.ch[i].credit, Given(d.timers[q - 0x3B], 1)))
            && (!(0x3B <= q <= 0x3E) ==> e.ch[i] == d.ch[i])
            && (q == 0x3F ==> (CanRun(d.v, d.ch[i]) <==> d.ch[i].busy && !d.ch[i].wedged && d.ch[i].ctrl % 2 == 1))
  {
    TickBank(d, 4, i);
    hide Decode, Tick;
    var t := Treq(d, i) - 0x3B;
    if 0 <= t < 4 && d.timers[t].Active() { assert Given(d.timers[t], 1) == TickPulses(d.timers[t]); }
  }
}
