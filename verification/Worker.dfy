/** The working channel's transfers are the abstract moves of Core. */
module Worker {
  import opened Words
  import opened Core
  import opened Chip
  import opened Control
  import opened Wiring
  import opened Bursts

  function ModeOf(f: Fields): (md: Core.Mode)
    requires f.Ok()
    ensures md.Ok()
  {
    Core.Mode(Size(f.sizeLog), f.incrR, f.incrW, f.bswap, f.sniff)
  }

  /** The landing zone of a record on a bank channel. */
  predicate IsWindow(x: Word) {
    exists b :: 0 <= b < 7 && x == Reg(b, 0x28)
  }

  function Datum(s: State, src: Loc, f: Fields): Word
    requires f.Ok() && Aligned(src, Size(f.sizeLog))
  {
    var x := Read(s, src, Size(f.sizeLog));
    if f.bswap then Words.Bswap(x, Size(f.sizeLog)) else x
  }

  /** A move a program may ask of channel w: both ends are named locations, pointers walk memory
      only, and what it writes keeps the machinery's registers meaningful. */
  predicate MoveOk(r: Rig, w: int, s: State, src: Loc, dst: Loc, f: Fields) {
    && f.Ok() && f.ring == 0 && Readable(r, src, Size(f.sizeLog)) && Writable(r, dst, Size(f.sizeLog))
    && (f.incrR ==> src.Mem?) && (f.incrW ==> dst.Mem?) && (f.sniff ==> w == r.sniffer) && dst != Count(w)
    && (ReadAligned(r, src, Size(f.sizeLog));
        var x := Datum(s, src, f);
        (dst == SniffCtl ==> SniffOk(r, x)) && (dst == Window ==> IsWindow(x)) && (dst.Count? ==> r.v.Mode(x) == 0))
  }

  /** Channel w is in the middle of a program move. */
  predicate Working(r: Rig, m: Machine, w: int, src: Loc, dst: Loc, f: Fields) {
    && r.Ok() && m.Ok() && m.dma.v == r.v && 0 <= w < r.v.Channels() && w != r.fetch && f.Ok() && SniffOk(r, m.dma.sctl)
    && var c := m.dma.ch[w];
       c.ctrl == Encode(r.v, f) && c.readAddr == Addr(r, src) && c.writeAddr == Addr(r, dst) && c.mode == 0
           && c.remaining > 0 &&
       c.busy && !c.wedged
  }

  /** The channel after one datum, before any completion. */
  function WorkedChan(c: Chan, f: Fields): Chan {
    var s := Size(f.sizeLog);
    c.(readAddr := if f.incrR then Add(c.readAddr, s) else c.readAddr,
       writeAddr := if f.incrW then Add(c.writeAddr, s) else c.writeAddr,
       remaining := if c.remaining > 0 then c.remaining - 1 else 0)
  }

  function Summed(d: Dma, f: Fields, x: Word): Dma {
    if f.sniff then d.(sdata := Add(d.sdata, x)) else d
  }

  function Worked(r: Rig, m: Machine, w: int, src: Loc, dst: Loc, f: Fields): (q: Machine)
    requires Working(r, m, w, src, dst, f) && MoveOk(r, w, StateOf(r, m), src, dst, f)
    ensures q.Ok()
  {
    ReadAligned(r, src, Size(f.sizeLog));
    var x := Datum(StateOf(r, m), src, f);
    var m1 := Wrote(r, m, dst, x, Size(f.sizeLog));
    var d := Summed(m1.dma, f, x);
    m1.(dma := d.(ch := d.ch[w := WorkedChan(d.ch[w], f)]))
  }

  /** Where a write lands, channel w keeps its own registers. */
  lemma OwnKept(r: Rig, m: Machine, w: int, dst: Loc, x: Word, size: int)
    requires r.Ok() && m.Ok() && 0 <= w < SLOTS && w != r.fetch && (size == 1 || size == 2 || size == 4)
    requires Writable(r, dst, size) && dst != Count(w)
    ensures Wrote(r, m, dst, x, size).dma.ch[w] == m.dma.ch[w] && Wrote(r, m, dst, x, size).dma.v == m.dma.v
    ensures Wrote(r, m, dst, x, size).dma.sctl == if dst == SniffCtl then x else m.dma.sctl
  {
    hide PutField, XorW, OrW, AndNotW, AccRead;
  }

  lemma NotOwnCount(r: Rig, w: int, dst: Loc, size: int)
    requires r.Ok() && 0 <= w < SLOTS && w != r.fetch && size > 0 && Writable(r, dst, size) && dst != Count(w)
    ensures var off := Addr(r, dst) - DMA - w * STRIDE; !(0 <= off < STRIDE)
  {
  }

  /** What follows the write. */
  lemma LandedWork(r: Rig, m: Machine, w: int, x: Word, to: Word, f: Fields)
    requires r.Ok() && m.Ok() && m.dma.v == r.v && 0 <= w < SLOTS && f.Ok() && f.ring == 0 && SniffOk(r, m.dma.sctl)
    requires m.dma.ch[w].ctrl == Encode(r.v, f) && m.dma.ch[w].mode == 0 && (f.sniff ==> w == r.sniffer)
    requires var off := to - DMA - w * STRIDE; !(0 <= off < STRIDE)
    ensures var d := Summed(m.dma, f, x);
            Landed(m, w, x, to, Size(f.sizeLog))
                == Done(Finished(m.(dma := d.(ch := d.ch[w := WorkedChan(d.ch[w], f)])), w))
  {
    SniffWork(r, m, w, x, f);
    MovedWork(r, m.dma.ch[w], f);
    hide Encode, Decode, Complete, Moved, Sniff, SniffOk;
    var d := Summed(m.dma, f, x);
    var c := d.ch[w];
    var g := Decode(r.v, c.ctrl);
    assert d.ch[w := Moved(c, g)][w := WorkedChan(c, f)] == d.ch[w := WorkedChan(c, f)];
  }

  lemma SniffWork(r: Rig, m: Machine, w: int, x: Word, f: Fields)
    requires r.Ok() && m.Ok() && m.dma.v == r.v && 0 <= w < SLOTS && f.Ok() && SniffOk(r, m.dma.sctl)
    requires m.dma.ch[w].ctrl == Encode(r.v, f) && (f.sniff ==> w == r.sniffer)
    ensures var g := Decode(r.v, m.dma.ch[w].ctrl);
            (if g.sniffEn then Sniff(m.dma, w, x, Size(f.sizeLog)) else Done(m.dma)) == Done(Summed(m.dma, f, x))
  {
    DecodeEncode(r.v, f);
    hide Encode, Decode;
  }

  lemma MovedWork(r: Rig, c: Chan, f: Fields)
    requires f.Ok() && f.ring == 0 && c.ctrl == Encode(r.v, f)
    ensures Moved(c, Decode(r.v, c.ctrl)) == WorkedChan(c, f).(remaining := c.remaining)
  {
    DecodeEncode(r.v, f);
    hide Encode, Decode;
  }

  /** One transfer of a working channel. */
  lemma WorkTransfer(r: Rig, m: Machine, w: int, src: Loc, dst: Loc, f: Fields)
    requires Working(r, m, w, src, dst, f) && MoveOk(r, w, StateOf(r, m), src, dst, f)
    ensures Transfer(m, w) == Done(Finished(Worked(r, m, w, src, dst, f), w))
  {
    var s, size := StateOf(r, m), Size(f.sizeLog);
    ReadAligned(r, src, size);
    var x := Datum(s, src, f);
    assert dst == SniffCtl ==> SniffOk(r, x);
    hide Encode, Decode, BusRead, BusWrite, Landed, Finished, Wrote, StateOf, Read, Words.Bswap, SniffOk, Addr,
        Readable, Writable, Transfer;
    LocRead(r, m, src, size);
    LocWrite(r, m, dst, x, size);
    OwnKept(r, m, w, dst, x, size);
    NotOwnCount(r, w, dst, size);
    var m1 := Wrote(r, m, dst, x, size);
    UnpacedTransfer(r, m, w, f, Read(s, src, size), m1);
    LandedWork(r, m1, w, x, Addr(r, dst), f);
  }

  /** A transfer of an unpaced channel: read, swap, write, and what follows the write. */
  lemma UnpacedTransfer(r: Rig, m: Machine, w: int, f: Fields, y: Word, m1: Machine)
    requires m.Ok() && m.dma.v == r.v && 0 <= w < SLOTS && f.Ok() && m.dma.ch[w].ctrl == Encode(r.v, f) && m1.Ok()
    requires BusRead(m, m.dma.ch[w].readAddr, Size(f.sizeLog)) == Done(y)
    requires BusWrite(m, m.dma.ch[w].writeAddr, if f.bswap then Words.Bswap(y, Size(f.sizeLog)) else y,
               Size(f.sizeLog)) == Done(m1)
    ensures var x := if f.bswap then Words.Bswap(y, Size(f.sizeLog)) else y;
            Transfer(m, w) == Landed(m1, w, x, m.dma.ch[w].writeAddr, Size(f.sizeLog))
  {
    DecodeEncode(r.v, f);
    hide Encode, Decode, BusRead, BusWrite, Landed, Words.Bswap;
    assert m.(dma := m.dma) == m;
  }

  /** And what the program sees of it. */
  lemma WorkedState(r: Rig, m: Machine, w: int, src: Loc, dst: Loc, f: Fields)
    requires Working(r, m, w, src, dst, f) && MoveOk(r, w, StateOf(r, m), src, dst, f)
    ensures Aligned(src, Size(f.sizeLog)) && Aligned(dst, Size(f.sizeLog))
    ensures StateOf(r, Worked(r, m, w, src, dst, f)) == Move(StateOf(r, m), src, dst, ModeOf(f))
  {
    var s, size := StateOf(r, m), Size(f.sizeLog);
    ReadAligned(r, src, size); ReadAligned(r, dst, size);
    var x := Datum(s, src, f);
    hide Encode, Decode, Wrote, Read, Write, Words.Bswap, SniffOk, Addr, CountsOf, IsWindow;
    WroteState(r, m, dst, x, size);
    var m1 := Wrote(r, m, dst, x, size);
    CountsByReload(r, m1.dma.ch, Worked(r, m, w, src, dst, f).dma.ch);
  }
}
