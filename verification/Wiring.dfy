/** A channel doing a program's data moves: every transfer it makes is the abstract move of
    Core, whatever location it names. Shared by the classic and the compact machine. */
module Wiring {
  import opened Words
  import opened Core
  import opened Chip
  import opened Control

  /** The channel whose READ_ADDR is %pc, the channel the sniffer observes, and the one word of
      memory the machinery itself depends on, with its value. */
  datatype Rig = Rig(v: Variant, fetch: int, sniffer: int, guard: int, held: Word, compact: bool) {
    predicate Ok() {
      0 <= fetch < v.Channels() && 0 <= sniffer < v.Channels() && (compact ==> 7 <= fetch)
    }
  }

  /** What the program sees of the machine. The classic machine has no window and no counts. */
  function StateOf(r: Rig, m: Machine): State
    requires r.Ok() && m.Ok()
  {
    var d := m.dma;
    State(m.mem, d.sdata, d.sctl, d.ch[r.fetch].readAddr,
        if r.compact then d.ch[r.fetch].writeAddr else 0, CountsOf(r, d.ch))
  }

  function CountsOf(r: Rig, ch: seq<Chan>): map<int, Word>
    requires |ch| == SLOTS
  {
    if r.compact then
      map[0 := ch[0].reload, 1 := ch[1].reload, 2 := ch[2].reload, 3 := ch[3].reload, 4 := ch[4].reload,
          5 := ch[5].reload,
          6 := ch[6].reload]
    else map[]
  }

  const R_READ := 0x00
  const R_AL3_WRITE := 0x34
  const R_AL2_COUNT := 0x24

  function Reg(i: int, off: int): int {
    DMA + i * STRIDE + off
  }

  /** The bus address of a location. */
  function Addr(r: Rig, l: Loc): int {
    match l
    case Mem(a) => a
    case Acc => DMA + r.v.SniffDataOff()
    case AccXor => DMA + 0x1000 + r.v.SniffDataOff()
    case AccSet => DMA + 0x2000 + r.v.SniffDataOff()
    case AccClr => DMA + 0x3000 + r.v.SniffDataOff()
    case SniffCtl => DMA + r.v.SniffCtrlOff()
    case Pc => Reg(r.fetch, R_READ)
    case Window => Reg(r.fetch, R_AL3_WRITE)
    case Count(b) => Reg(b, R_AL2_COUNT)
  }

  predicate Readable(r: Rig, l: Loc, size: int)
    requires size > 0
  {
    match l
    case Mem(a) => InSram(r.v, a, size) && a % size == 0
    case Acc | SniffCtl | Pc => true
    case Window => r.compact
    case _ => false
  }

  predicate Writable(r: Rig, l: Loc, size: int)
    requires size > 0
  {
    match l
    case Mem(a) => InSram(r.v, a, size) && a % size == 0 && a / 4 != r.guard
    case Window => r.compact
    case Count(b) => r.compact && 0 <= b < 7
    case _ => true
  }

  /** The sniffer sums what the sniffer channel moves, and reads are not inverted. */
  predicate SniffOk(r: Rig, sctl: Word) {
    Flag(sctl, 1) && sctl / 2 % 16 == r.sniffer && sctl / 0x20 % 16 == 15 && !Flag(sctl, 0x200) && !Flag(sctl, 0x800)
  }

  lemma ReadAligned(r: Rig, l: Loc, size: int)
    requires (size == 1 || size == 2 || size == 4) && (Readable(r, l, size) || Writable(r, l, size))
    ensures Aligned(l, size)
  {
    if l.Mem? { AlignedFits(l.addr, size); }
  }

  // ----- register addresses -----

  /** An access to alias op of the register at off. */
  lemma RegBus(m: Machine, op: int, off: int, x: Word, size: int)
    requires m.Ok() && 0 <= op < 4 && 0 <= off < 0x1000 && off % 4 == 0 && (size == 1 || size == 2 || size == 4)
    ensures BusRead(m, DMA + op * 0x1000 + off, size) == Done(RegRead(m.dma, off))
    ensures BusWrite(m, DMA + op * 0x1000 + off, x, size) ==
            Done(m.(dma := RegWrite(m.dma, off, Alias(op, RegRead(m.dma, off), x), x != 0)))
  {
    hide RegRead, RegWrite, Alias;
    WordAligned(DMA + op * 0x1000 + off, size);
  }

  lemma WordAligned(a: int, size: int)
    requires a % 4 == 0 && (size == 1 || size == 2 || size == 4)
    ensures a % size == 0
  {
  }

  lemma ChanReg(d: Dma, i: int, r: int, x: Word, nonzero: bool)
    requires d.Ok() && 0 <= i < d.v.Channels() && 0 <= r < STRIDE
    ensures 0 <= i * STRIDE + r < 0x1000
    ensures RegWrite(d, i * STRIDE + r, x, nonzero) == ChanWrite(d, i, r, x, nonzero)
    ensures FieldAt(r) == ReadAddr ==> RegRead(d, i * STRIDE + r) == d.ch[i].readAddr
    ensures FieldAt(r) == WriteAddr ==> RegRead(d, i * STRIDE + r) == d.ch[i].writeAddr
  {
    hide ChanWrite;
    assert (i * STRIDE + r) / STRIDE == i && (i * STRIDE + r) % STRIDE == r;
  }

  lemma SniffReg(d: Dma, x: Word, nonzero: bool)
    requires d.Ok()
    ensures RegRead(d, d.v.SniffDataOff()) == SniffOut(d.sctl, d.sdata) && RegRead(d, d.v.SniffCtrlOff()) == d.sctl
    ensures RegWrite(d, d.v.SniffDataOff(), x, nonzero) == d.(sdata := x)
    ensures RegWrite(d, d.v.SniffCtrlOff(), x, nonzero) == d.(sctl := x)
  {
    hide SniffOut;
  }

  lemma MemRead(r: Rig, m: Machine, a: int, size: int)
    requires r.Ok() && m.Ok() && m.dma.v == r.v && (size == 1 || size == 2 || size == 4) && Readable(r, Mem(a), size)
    ensures 0 <= a < M32 && Aligned(Mem(a), size) && BusRead(m, a, size) == Done(Read(StateOf(r, m), Mem(a), size))
  {
    ReadAligned(r, Mem(a), size);
    hide Words.Field, RegRead, CountsOf;
  }

  lemma AccRegRead(r: Rig, m: Machine, size: int)
    requires r.Ok() && m.Ok() && m.dma.v == r.v && (size == 1 || size == 2 || size == 4) && SniffOk(r, m.dma.sctl)
    ensures BusRead(m, Addr(r, Acc), size) == Done(AccRead(StateOf(r, m)))
    ensures BusRead(m, Addr(r, SniffCtl), size) == Done(m.dma.sctl)
  {
    hide RegRead, RegWrite, BusRead, BusWrite, CountsOf, Rev32, Alias;
    SniffReg(m.dma, 0, false);
    RegBus(m, 0, m.dma.v.SniffDataOff(), 0, size);
    RegBus(m, 0, m.dma.v.SniffCtrlOff(), 0, size);
  }

  lemma FetchRegRead(r: Rig, m: Machine, size: int)
    requires r.Ok() && m.Ok() && m.dma.v == r.v && (size == 1 || size == 2 || size == 4)
    ensures BusRead(m, Addr(r, Pc), size) == Done(m.dma.ch[r.fetch].readAddr)
    ensures BusRead(m, Addr(r, Window), size) == Done(m.dma.ch[r.fetch].writeAddr)
  {
    hide RegRead, RegWrite, BusRead, BusWrite, Alias;
    ChanReg(m.dma, r.fetch, R_READ, 0, false); RegBus(m, 0, r.fetch * STRIDE + R_READ, 0, size);
    ChanReg(m.dma, r.fetch, R_AL3_WRITE, 0, false); RegBus(m, 0, r.fetch * STRIDE + R_AL3_WRITE, 0, size);
  }

  /** A bus read of a location's address reads the location. */
  lemma LocRead(r: Rig, m: Machine, l: Loc, size: int)
    requires r.Ok() && m.Ok() && m.dma.v == r.v && (size == 1 || size == 2 || size == 4) && Readable(r, l, size)
    requires SniffOk(r, m.dma.sctl)
    ensures 0 <= Addr(r, l) < M32 && Aligned(l, size)
    ensures BusRead(m, Addr(r, l), size) == Done(Read(StateOf(r, m), l, size))
  {
    hide CountsOf, BusRead, AccRead, SniffOk, Words.Field;
    if l.Mem? {
      MemRead(r, m, l.addr, size);
    } else if l == Acc || l == SniffCtl {
      AccRegRead(r, m, size);
    } else {
      FetchRegRead(r, m, size);
    }
  }

  /** The machine after a datum has been written to a location. */
  function Wrote(r: Rig, m: Machine, l: Loc, x: Word, size: int): (q: Machine)
    requires r.Ok() && m.Ok() && (size == 1 || size == 2 || size == 4) && Writable(r, l, size)
    ensures q.Ok()
  {
    ReadAligned(r, l, size);
    var d := m.dma;
    match l
    case Mem(a) => m.(mem := m.mem[a / 4 := PutField(Peek(m.mem, a / 4), a % 4, size, x)])
    case Acc => m.(dma := d.(sdata := x))
    case AccXor => m.(dma := d.(sdata := XorW(AccRead(StateOf(r, m)), x)))
    case AccSet => m.(dma := d.(sdata := OrW(AccRead(StateOf(r, m)), x)))
    case AccClr => m.(dma := d.(sdata := AndNotW(AccRead(StateOf(r, m)), x)))
    case SniffCtl => m.(dma := d.(sctl := x))
    case Pc => m.(dma := d.(ch := d.ch[r.fetch := d.ch[r.fetch].(readAddr := x)]))
    case Window => m.(dma := d.(ch := d.ch[r.fetch := d.ch[r.fetch].(writeAddr := x)]))
    case Count(b) => m.(dma := d.(ch := d.ch[b := d.ch[b].(reload := x)]))
  }

  lemma MemWrite(r: Rig, m: Machine, a: int, x: Word, size: int)
    requires r.Ok() && m.Ok() && m.dma.v == r.v && (size == 1 || size == 2 || size == 4) && Writable(r, Mem(a), size)
    ensures 0 <= a < M32 && Aligned(Mem(a), size) && BusWrite(m, a, x, size) == Done(Wrote(r, m, Mem(a), x, size))
  {
    ReadAligned(r, Mem(a), size);
    hide PutField, RegRead, RegWrite;
  }

  /** A write to a register of channel i that does not trigger. */
  lemma ChanBus(m: Machine, i: int, reg: int, x: Word, size: int)
    requires m.Ok() && 0 <= i < m.dma.v.Channels() && (reg == R_READ || reg == R_AL3_WRITE || reg == R_AL2_COUNT)
    requires size == 1 || size == 2 || size == 4
    ensures 0 <= Reg(i, reg) < M32
    ensures BusWrite(m, Reg(i, reg), x, size) ==
            Done(m.(dma := m.dma.(ch := m.dma.ch[i := WriteField(m.dma.ch[i], m.dma.v, FieldAt(reg), x)])))
  {
    hide RegRead, RegWrite, BusWrite, BusRead;
    ChanReg(m.dma, i, reg, x, x != 0);
    RegBus(m, 0, i * STRIDE + reg, x, size);
  }

  /** A bus write to a location's address writes the location. */
  lemma LocWrite(r: Rig, m: Machine, l: Loc, x: Word, size: int)
    requires r.Ok() && m.Ok() && m.dma.v == r.v && (size == 1 || size == 2 || size == 4) && Writable(r, l, size)
    requires SniffOk(r, m.dma.sctl)
    ensures 0 <= Addr(r, l) < M32 && Aligned(l, size)
    ensures BusWrite(m, Addr(r, l), x, size) == Done(Wrote(r, m, l, x, size))
  {
    var d := m.dma;
    assert SniffOut(d.sctl, d.sdata) == AccRead(StateOf(r, m)) by { hide Rev32, CountsOf; }
    hide PutField, RegRead, RegWrite, CountsOf, XorW, OrW, AndNotW, BusWrite, SniffOk, SniffOut, AccRead;
    match l
    case Mem(a) => MemWrite(r, m, a, x, size);
    case Acc => SniffWrite(m, 0, x, size);
    case AccXor => SniffWrite(m, 1, x, size);
    case AccSet => SniffWrite(m, 2, x, size);
    case AccClr => SniffWrite(m, 3, x, size);
    case SniffCtl => RegBus(m, 0, d.v.SniffCtrlOff(), x, size); SniffReg(d, x, x != 0);
    case Pc => ChanBus(m, r.fetch, R_READ, x, size);
    case Window => ChanBus(m, r.fetch, R_AL3_WRITE, x, size);
    case Count(b) => ChanBus(m, b, R_AL2_COUNT, x, size);
  }

  lemma SniffWrite(m: Machine, op: int, x: Word, size: int)
    requires m.Ok() && 0 <= op < 4 && (size == 1 || size == 2 || size == 4)
    ensures var d := m.dma;
            BusWrite(m, DMA + op * 0x1000 + d.v.SniffDataOff(), x, size) ==
            Done(m.(dma := d.(sdata := Alias(op, SniffOut(d.sctl, d.sdata), x))))
  {
    hide RegRead, RegWrite, SniffOut, Alias, BusRead, BusWrite;
    var d := m.dma;
    RegBus(m, op, d.v.SniffDataOff(), x, size);
    SniffReg(d, Alias(op, SniffOut(d.sctl, d.sdata), x), x != 0);
  }

  /** The abstract state follows. */
  lemma WroteState(r: Rig, m: Machine, l: Loc, x: Word, size: int)
    requires r.Ok() && m.Ok() && (size == 1 || size == 2 || size == 4) && Writable(r, l, size)
    ensures Aligned(l, size) && StateOf(r, Wrote(r, m, l, x, size)) == Write(StateOf(r, m), l, x, size)
  {
    ReadAligned(r, l, size);
    hide AccRead, PutField, XorW, OrW, AndNotW;
    var ch := m.dma.ch;
    if l.Count? {
      assert CountsOf(r, ch[l.bank := ch[l.bank].(reload := x)]) == CountsOf(r, ch)[l.bank := x];
    } else {
      hide CountsOf;
      CountsByReload(r, ch, Wrote(r, m, l, x, size).dma.ch);
    }
  }

  lemma CountsByReload(r: Rig, ch: seq<Chan>, ch': seq<Chan>)
    requires |ch| == |ch'| == SLOTS && forall i :: 0 <= i < 7 ==> ch'[i].reload == ch[i].reload
    ensures CountsOf(r, ch) == CountsOf(r, ch')
  {
  }
}
