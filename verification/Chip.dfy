/** The DMA block of one SKU as a cacheless state machine (host/emu/dma.go, host/emu/machine.go):
    registers, triggers and chains, pacing timers ticked cycle by cycle, and the bus. */
module Chip {
  import opened Words
  import opened Core

  // ----- SKU encodings -----

  datatype Variant = Rp2040 | Rp2350 {
    function Channels(): int { if Rp2040? then 12 else 16 }
    function SramSize(): int { if Rp2040? then 0x4_2000 else 0x8_2000 }
    function IncrReadRev(): int { if Rp2040? then 0 else 0x20 }
    function IncrWrite(): int { if Rp2040? then 0x20 else 0x40 }
    function IncrWriteRev(): int { if Rp2040? then 0 else 0x80 }
    function RingSize(): int { if Rp2040? then 0x40 else 0x100 }
    function RingSel(): int { if Rp2040? then 0x400 else 0x1000 }
    function ChainTo(): int { if Rp2040? then 0x800 else 0x2000 }
    function TreqSel(): int { if Rp2040? then 0x8000 else 0x2_0000 }
    function Quiet(): int { if Rp2040? then 0x20_0000 else 0x80_0000 }
    function Bswap(): int { if Rp2040? then 0x40_0000 else 0x100_0000 }
    function SniffEn(): int { if Rp2040? then 0x80_0000 else 0x200_0000 }
    function Busy(): int { if Rp2040? then 0x100_0000 else 0x400_0000 }
    function TimerOff(): int { if Rp2040? then 0x420 else 0x440 }
    function MultiOff(): int { if Rp2040? then 0x430 else 0x450 }
    function SniffCtrlOff(): int { if Rp2040? then 0x434 else 0x454 }
    function SniffDataOff(): int { if Rp2040? then 0x438 else 0x458 }
    function AbortOff(): int { if Rp2040? then 0x444 else 0x464 }
    function CountOff(): int { if Rp2040? then 0x448 else 0x468 }

    /** RP2350 keeps a mode nibble above a 28-bit count. */
    function Count(reload: Word): Word { if Rp2040? then reload else reload % 0x1000_0000 }
    function Mode(reload: Word): Word { if Rp2040? then 0 else reload / 0x1000_0000 }
  }

  const SRAM := 0x2000_0000
  const DMA := 0x5000_0000
  const STRIDE := 0x40
  const SLOTS := 16
  const PERMANENT := 0x3F
  const TIMER0 := 0x3B
  const TRIGGER_SELF := 1
  const ENDLESS := 15
  const MAX_CREDIT := 63
  const MAX_DEPTH := 32

  predicate Flag(ctrl: Word, w: int) {
    w > 0 && ctrl / w % 2 == 1
  }

  /** The CTRL fields the transfer loop uses. A ring field is the wrap length, 0 for none. */
  datatype Decoded = Decoded(en: bool, hp: bool, sizeLog: int, chainTo: int, treq: int, strideR: Word, strideW: Word,
                             ringR: int, ringW: int, bswap: bool, sniffEn: bool, quiet: bool)

  function Size(sizeLog: int): (s: int)
    ensures s == 1 || s == 2 || s == 4 || s == 8
  {
    if sizeLog == 0 then 1 else if sizeLog == 1 then 2 else if sizeLog == 2 then 4 else 8
  }

  function Stride(on: bool, back: bool, size: int): Word
    requires 0 < size <= 8
  {
    if !on then 0 else if back then M32 - size else size
  }

  function Decode(v: Variant, ctrl: Word): (f: Decoded)
    ensures 0 <= f.sizeLog <= 3 && 0 <= f.chainTo < SLOTS && f.ringR >= 0 && f.ringW >= 0
  {
    var size := Size(ctrl / 4 % 4);
    var ring := ctrl / v.RingSize() % 16;
    var wrap := if ring == 0 then 0 else Pow2(ring);
    Decoded(Flag(ctrl, 1), Flag(ctrl, 2), ctrl / 4 % 4, ctrl / v.ChainTo() % 16, ctrl / v.TreqSel() % 64,
            Stride(Flag(ctrl, 0x10), Flag(ctrl, v.IncrReadRev()), size),
            Stride(Flag(ctrl, v.IncrWrite()), Flag(ctrl, v.IncrWriteRev()), size),
            if Flag(ctrl, v.RingSel()) then 0 else wrap, if Flag(ctrl, v.RingSel()) then wrap else 0,
            Flag(ctrl, v.Bswap()), Flag(ctrl, v.SniffEn()), Flag(ctrl, v.Quiet()))
  }

  // ----- channels -----

  datatype Chan = Chan(readAddr: Word, writeAddr: Word, ctrl: Word, reload: Word, remaining: Word, mode: Word,
                       busy: bool, wedged: bool, credit: int)

  /** Timers hold their register and the fractional accumulator as of this cycle. */
  datatype Timer = Timer(reg: Word, acc: nat) {
    function X(): int { reg / 0x1_0000 }
    function Y(): int { reg % 0x1_0000 }
    predicate Active() { X() != 0 && Y() != 0 }
  }

  /** Whether a channel can issue a transfer this cycle. */
  predicate CanRun(v: Variant, c: Chan) {
    !c.wedged && c.busy && Flag(c.ctrl, 1) && (Decode(v, c.ctrl).treq == PERMANENT || c.credit > 0)
  }

  datatype Dma = Dma(v: Variant, ch: seq<Chan>, timers: seq<Timer>, sctl: Word, sdata: Word, intr: set<int>) {
    predicate Ok() {
      |ch| == SLOTS && |timers| == 4
    }

    /** The channels that can issue a transfer. */
    function Ready(): set<int>
      requires Ok()
    {
      set i | 0 <= i < SLOTS && CanRun(v, ch[i])
    }

    function High(): set<int>
      requires Ok()
    {
      set i | 0 <= i < SLOTS && Flag(ch[i].ctrl, 2)
    }
  }

  // ----- triggers and chains -----

  function Quieted(d: Dma, i: int, raise: bool): Dma {
    if raise then d.(intr := d.intr + {i}) else d
  }

  /** A trigger that carries a nonzero value; depth guards cascades of zero-length sequences. */
  function Trigger(d: Dma, i: int, depth: nat): (r: Dma)
    requires d.Ok() && 0 <= i < SLOTS && depth <= MAX_DEPTH
    ensures r.Ok() && r.v == d.v && r.timers == d.timers && r.sctl == d.sctl && r.sdata == d.sdata
    decreases MAX_DEPTH - depth, 0
  {
    var c := d.ch[i];
    if !Flag(c.ctrl, 1) || c.busy then d
    else
      var mode, count := d.v.Mode(c.reload), d.v.Count(c.reload);
      var c := c.(mode := mode, credit := 0);
      if count == 0 && mode != ENDLESS then
        var d := d.(ch := d.ch[i := c]);
        if depth < MAX_DEPTH then Complete(d, i, depth + 1) else d
      else d.(ch := d.ch[i := c.(busy := true, remaining := count)])
  }

  function Complete(d: Dma, i: int, depth: nat): (r: Dma)
    requires d.Ok() && 0 <= i < SLOTS && depth <= MAX_DEPTH
    ensures r.Ok() && r.v == d.v && r.timers == d.timers && r.sctl == d.sctl && r.sdata == d.sdata
    decreases MAX_DEPTH - depth, 1
  {
    var f := Decode(d.v, d.ch[i].ctrl);
    var d := Quieted(d.(ch := d.ch[i := d.ch[i].(busy := false)]), i, !f.quiet);
    var d := if f.chainTo != i && f.chainTo < d.v.Channels() then Trigger(d, f.chainTo, depth) else d;
    if d.ch[i].mode == TRIGGER_SELF then Trigger(d, i, depth) else d
  }

  /** A zero-valued trigger starts nothing; a quiet channel reports it as an interrupt. */
  function TriggerValue(d: Dma, i: int, nonzero: bool, quietCtrl: Word): (r: Dma)
    requires d.Ok() && 0 <= i < SLOTS
    ensures r.Ok() && r.v == d.v && r.timers == d.timers && r.sctl == d.sctl && r.sdata == d.sdata
  {
    if !nonzero then Quieted(d, i, Flag(quietCtrl, d.v.Quiet())) else Trigger(d, i, 0)
  }

  // ----- registers -----

  datatype Field = ReadAddr | WriteAddr | TransCount | Ctrl | NoField

  /** What the register at an offset within a channel's 64 bytes names. */
  function FieldAt(r: int): Field {
    if r == 0x00 || r == 0x14 || r == 0x28 || r == 0x3C then ReadAddr
    else if r == 0x04 || r == 0x18 || r == 0x2C || r == 0x34 then WriteAddr
    else if r == 0x08 || r == 0x1C || r == 0x24 || r == 0x38 then TransCount
    else if r == 0x0C || r == 0x10 || r == 0x20 || r == 0x30 then Ctrl
    else NoField
  }

  /** The last register of each alias row triggers. */
  predicate IsTrigger(r: int) {
    r == 0x0C || r == 0x1C || r == 0x2C || r == 0x3C
  }

  predicate IsTimer(v: Variant, off: int) {
    v.TimerOff() <= off < v.TimerOff() + 16 && off % 4 == 0
  }

  function RegRead(d: Dma, off: int): Word
    requires d.Ok() && off >= 0
  {
    if off < d.v.Channels() * STRIDE then
      var c := d.ch[off / STRIDE];
      match FieldAt(off % STRIDE)
      case ReadAddr => c.readAddr
      case WriteAddr => c.writeAddr
      case TransCount => c.remaining
      case Ctrl => if c.busy && !Flag(c.ctrl, d.v.Busy()) then Wrap(c.ctrl + d.v.Busy()) else c.ctrl
      case NoField => 0
    else if IsTimer(d.v, off) then d.timers[(off - d.v.TimerOff()) / 4].reg
    else if off == d.v.SniffCtrlOff() then d.sctl
    else if off == d.v.SniffDataOff() then SniffOut(d.sctl, d.sdata)
    else if off == d.v.CountOff() then d.v.Channels()
    else 0
  }

  /** OUT_REV and OUT_INV act between the accumulator and the bus. */
  function SniffOut(sctl: Word, sdata: Word): Word {
    var x := if Flag(sctl, OUT_REV) then Rev32(sdata) else sdata;
    if Flag(sctl, 0x800) then ONES - x else x
  }

  function WriteField(c: Chan, v: Variant, f: Field, val: Word): Chan {
    match f
    case ReadAddr => c.(readAddr := val)
    case WriteAddr => c.(writeAddr := val)
    case TransCount => c.(reload := val)
    case Ctrl => c.(ctrl := if Flag(val, v.Busy()) then Wrap(val - v.Busy()) else val)
    case NoField => c
  }

  function ChanWrite(d: Dma, i: int, r: int, val: Word, nonzero: bool): (q: Dma)
    requires d.Ok() && 0 <= i < SLOTS
    ensures q.Ok() && q.v == d.v
  {
    var prev := d.ch[i].ctrl;
    var d := d.(ch := d.ch[i := WriteField(d.ch[i], d.v, FieldAt(r), val)]);
    if IsTrigger(r) then TriggerValue(d, i, nonzero, prev) else d
  }

  /** Triggers channels 0..n-1 whose bit is set, in order. */
  function MultiTrigger(d: Dma, val: Word, n: nat): (r: Dma)
    requires d.Ok() && n <= SLOTS
    ensures r.Ok() && r.v == d.v
  {
    if n == 0 then d
    else
      var d := MultiTrigger(d, val, n - 1);
      if Bit(val, n - 1) == 1 then Trigger(d, n - 1, 0) else d
  }

  function Abort(d: Dma, val: Word, n: nat): (r: Dma)
    requires d.Ok() && n <= SLOTS
    ensures r.Ok() && r.v == d.v
  {
    if n == 0 then d
    else
      var d := Abort(d, val, n - 1);
      if Bit(val, n - 1) == 1 then d.(ch := d.ch[n - 1 := d.ch[n - 1].(busy := false, remaining := 0)]) else d
  }

  /** A register write; val is the final value, nonzero says whether the bus datum was. */
  function RegWrite(d: Dma, off: int, val: Word, nonzero: bool): (r: Dma)
    requires d.Ok() && off >= 0
    ensures r.Ok() && r.v == d.v
  {
    if off < d.v.Channels() * STRIDE then ChanWrite(d, off / STRIDE, off % STRIDE, val, nonzero)
    else if IsTimer(d.v, off) then
      var i := (off - d.v.TimerOff()) / 4;
      d.(timers := d.timers[i := d.timers[i].(reg := val)])
    else if off == d.v.MultiOff() then MultiTrigger(d, val, d.v.Channels())
    else if off == d.v.SniffCtrlOff() then d.(sctl := val)
    else if off == d.v.SniffDataOff() then d.(sdata := val)
    else if off == d.v.AbortOff() then Abort(d, val, d.v.Channels())
    else d
  }

  // ----- pacing -----

  /** One DREQ pulse: every listening channel banks a credit, up to the counter's limit. */
  function Pulse(d: Dma, dreq: int): (r: Dma)
    requires d.Ok()
    ensures r.Ok() && r.v == d.v && r.timers == d.timers && r.sctl == d.sctl && r.sdata == d.sdata
  {
    d.(ch := seq(SLOTS, i requires 0 <= i < SLOTS && |d.ch| == SLOTS =>
        if Decode(d.v, d.ch[i].ctrl).treq == dreq && d.ch[i].credit < MAX_CREDIT
        then d.ch[i].(credit := d.ch[i].credit + 1) else d.ch[i]))
  }

  function Pulses(d: Dma, dreq: int, n: nat): (r: Dma)
    requires d.Ok()
    ensures r.Ok() && r.v == d.v && r.timers == d.timers && r.sctl == d.sctl && r.sdata == d.sdata
  {
    if n == 0 then d else Pulse(Pulses(d, dreq, n - 1), dreq)
  }

  /** One cycle of a timer's fractional accumulator. */
  function TickAcc(t: Timer): (r: Timer)
    requires t.Active()
  {
    t.(acc := (t.acc + t.X()) % t.Y())
  }

  function TickPulses(t: Timer): (p: nat)
    requires t.Active()
  {
    (t.acc + t.X()) / t.Y()
  }

  /** The first n timers advance by a cycle, in order. */
  function Tick(d: Dma, n: nat): (r: Dma)
    requires d.Ok() && n <= 4
    ensures r.Ok() && r.v == d.v && r.sctl == d.sctl && r.sdata == d.sdata
  {
    if n == 0 then d
    else
      var d := Tick(d, n - 1);
      var t := d.timers[n - 1];
      if !t.Active() then d
      else Pulses(d.(timers := d.timers[n - 1 := TickAcc(t)]), TIMER0 + n - 1, TickPulses(t))
  }

  // ----- the machine -----

  datatype Machine = Machine(dma: Dma, mem: map<int, Word>, cycle: nat, last: int) {
    predicate Ok() {
      dma.Ok() && 0 <= last < SLOTS
    }
  }

  datatype Result<T> = Done(value: T) | Fault

  predicate InSram(v: Variant, addr: int, size: int) {
    SRAM <= addr && addr + size <= SRAM + v.SramSize()
  }

  predicate InRegs(addr: int) {
    DMA <= addr < DMA + 0x4000
  }

  function BusRead(m: Machine, addr: Word, size: int): Result<Word>
    requires m.Ok() && (size == 1 || size == 2 || size == 4)
  {
    if addr % size != 0 then Fault
    else if InSram(m.dma.v, addr, size) then
      AlignedFits(addr, size);
      Done(Words.Field(Peek(m.mem, addr / 4), addr % 4, size))
    else if InRegs(addr) then Done(RegRead(m.dma, (addr - DMA) % 0x1000))
    else Fault
  }

  lemma AlignedFits(addr: int, size: int)
    requires (size == 1 || size == 2 || size == 4) && addr % size == 0
    ensures Fits(addr % 4, size)
  {
  }

  /** The atomic aliases combine the datum with the register's current reading. */
  function Alias(op: int, cur: Word, val: Word): Word {
    if op == 1 then XorW(cur, val) else if op == 2 then OrW(cur, val) else if op == 3 then AndNotW(cur, val) else val
  }

  function BusWrite(m: Machine, addr: Word, val: Word, size: int): (r: Result<Machine>)
    requires m.Ok() && (size == 1 || size == 2 || size == 4)
    ensures r.Done? ==> r.value.Ok() && r.value.dma.v == m.dma.v && r.value.cycle == m.cycle && r.value.last == m.last
  {
    if addr % size != 0 then Fault
    else if InSram(m.dma.v, addr, size) then
      AlignedFits(addr, size);
      Done(m.(mem := m.mem[addr / 4 := PutField(Peek(m.mem, addr / 4), addr % 4, size, val)]))
    else if InRegs(addr) then
      var off := (addr - DMA) % 0x1000;
      Done(m.(dma := RegWrite(m.dma, off, Alias((addr - DMA) / 0x1000, RegRead(m.dma, off), val), val != 0)))
    else Fault
  }

  /** The sniffer in SUM mode; its CRC and parity modes are not modelled. */
  function Sniff(d: Dma, i: int, datum: Word, size: int): (r: Result<Dma>)
    requires d.Ok() && (size == 1 || size == 2 || size == 4)
    ensures r.Done? ==> r.value.Ok() && r.value == d.(sdata := r.value.sdata)
  {
    if !Flag(d.sctl, 1) || d.sctl / 2 % 16 != i then Done(d)
    else if d.sctl / 0x20 % 16 != 15 then Fault
    else
      var x := if Flag(d.sctl, 0x200) then Words.Bswap(datum, size) else datum;
      Done(d.(sdata := Add(d.sdata, x)))
  }

  /** Advances an address by its stride, wrapping the low bits inside a ring. */
  function Advance(addr: Word, stride: Word, ring: int): Word
    requires ring >= 0
  {
    var next := Add(addr, stride);
    if ring == 0 then next else Wrap(addr - addr % ring + next % ring)
  }

  function Moved(c: Chan, f: Decoded): Chan
    requires f.ringR >= 0 && f.ringW >= 0
  {
    c.(readAddr := if f.strideR == 0 then c.readAddr else Advance(c.readAddr, f.strideR, f.ringR),
       writeAddr := if f.strideW == 0 then c.writeAddr else Advance(c.writeAddr, f.strideW, f.ringW))
  }

  /** The count-down after a datum has moved; to is where it was written. */
  function Counted(d: Dma, i: int, to: Word): (r: Dma)
    requires d.Ok() && 0 <= i < SLOTS
    ensures r.Ok() && r.v == d.v
  {
    var c := d.ch[i];
    if c.mode == ENDLESS then d
    else
      var c := if c.remaining > 0 then c.(remaining := c.remaining - 1) else c;
      var off := to - DMA - i * STRIDE;
      if d.v.Rp2040? && 0 <= off < STRIDE && FieldAt(off).TransCount? then d.(ch := d.ch[i := c.(wedged := true)])
      else
        var d := d.(ch := d.ch[i := c]);
        if c.remaining == 0 && c.busy then Complete(d, i, 0) else d
  }

  /** One datum move on channel i: read, swap, write, sniff, advance, count down. */
  function Transfer(m: Machine, i: int): (r: Result<Machine>)
    requires m.Ok() && 0 <= i < SLOTS
    ensures r.Done? ==> r.value.Ok() && r.value.dma.v == m.dma.v && r.value.cycle == m.cycle && r.value.last == m.last
  {
    var c := m.dma.ch[i];
    var f := Decode(m.dma.v, c.ctrl);
    var d := if f.treq != PERMANENT && c.credit > 0 then m.dma.(ch := m.dma.ch[i := c.(credit := c.credit - 1)])
        else m.dma;
    var m := m.(dma := d);
    if f.sizeLog == 3 then Fault
    else match BusRead(m, c.readAddr, Size(f.sizeLog))
      case Fault => Fault
      case Done(x) =>
        var x := if f.bswap then Words.Bswap(x, Size(f.sizeLog)) else x;
        match BusWrite(m, c.writeAddr, x, Size(f.sizeLog))
        case Fault => Fault
        case Done(m) => Landed(m, i, x, c.writeAddr, Size(f.sizeLog))
  }

  /** What follows the write: CTRL is decoded afresh, since the datum may have landed in this
      channel's own registers. */
  function Landed(m: Machine, i: int, x: Word, to: Word, size: int): (r: Result<Machine>)
    requires m.Ok() && 0 <= i < SLOTS && (size == 1 || size == 2 || size == 4)
    ensures r.Done? ==> r.value.Ok() && r.value.dma.v == m.dma.v && r.value.cycle == m.cycle && r.value.last == m.last
  {
    var g := Decode(m.dma.v, m.dma.ch[i].ctrl);
    match if g.sniffEn then Sniff(m.dma, i, x, size) else Done(m.dma)
    case Fault => Fault
    case Done(d) =>
      var d := d.(ch := d.ch[i := Moved(d.ch[i], g)]);
      Done(m.(dma := Counted(d, i, to)))
  }

  // ----- arbitration -----

  /** The first member of r at or after j, or SLOTS. */
  function Scan(r: set<int>, j: nat): (k: nat)
    requires j <= SLOTS
    ensures j <= k <= SLOTS && (k < SLOTS ==> k in r)
    ensures forall i :: j <= i < k ==> i !in r
    decreases SLOTS - j
  {
    if j == SLOTS || j in r then j else Scan(r, j + 1)
  }

  /** Round robin: the first ready channel after the last grant, else the lowest. */
  function Pick(r: set<int>, last: int): (k: int)
    requires 0 <= last < SLOTS && (exists i :: 0 <= i < SLOTS && i in r)
    ensures 0 <= k < SLOTS && k in r
  {
    var k := Scan(r, last + 1);
    if k < SLOTS then k else Scan(r, 0)
  }

  /** High-priority channels shut out the others. */
  function Favoured(d: Dma): (r: set<int>)
    requires d.Ok()
    ensures r <= d.Ready() && (r == {} <==> d.Ready() == {})
  {
    var hp := d.Ready() * d.High();
    if hp == {} then d.Ready() else hp
  }

  lemma SomeReady(d: Dma)
    requires d.Ok() && d.Ready() != {}
    ensures exists i :: 0 <= i < SLOTS && i in Favoured(d)
  {
    assert Favoured(d) != {};
    var i :| i in Favoured(d);
    assert i in d.Ready();
  }

  /** One cycle: timers tick, then one channel moves one datum. */
  function Step(m: Machine): (r: Result<Machine>)
    requires m.Ok()
    ensures r.Done? ==> r.value.Ok() && r.value.dma.v == m.dma.v && r.value.cycle == m.cycle + 1
  {
    var d := Tick(m.dma, 4);
    var m := m.(dma := d, cycle := m.cycle + 1);
    if d.Ready() == {} then Done(m)
    else
      SomeReady(d);
      var k := Pick(Favoured(d), m.last);
      Transfer(m.(last := k), k)
  }

  function Steps(m: Machine, n: nat): (r: Result<Machine>)
    requires m.Ok()
    ensures r.Done? ==> r.value.Ok() && r.value.dma.v == m.dma.v && r.value.cycle == m.cycle + n
  {
    if n == 0 then Done(m)
    else match Steps(m, n - 1) case Fault => Fault case Done(m') => Step(m')
  }

  lemma OneStep(m: Machine)
    requires m.Ok()
    ensures Steps(m, 1) == Step(m)
  {
    hide Step;
    assert Steps(m, 0) == Done(m);
  }

  /** A run split after its first step. */
  lemma {:induction false} StepsFront(m: Machine, n: nat)
    requires m.Ok() && n > 0 && Step(m).Done?
    ensures Steps(m, n) == Steps(Step(m).value, n - 1)
  {
    hide Step;
    if n == 1 {
      assert Steps(m, 0) == Done(m);
    } else {
      StepsFront(m, n - 1);
    }
  }

  /** A run split anywhere. */
  lemma {:induction false} StepsAdd(m: Machine, a: nat, b: nat)
    requires m.Ok() && Steps(m, a).Done?
    ensures Steps(m, a + b) == Steps(Steps(m, a).value, b)
    decreases b
  {
    hide Step;
    if b > 0 { StepsAdd(m, a, b - 1); }
  }
}
