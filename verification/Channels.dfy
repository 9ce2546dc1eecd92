/** How a channel's sequence begins and ends (host/emu/dma.go): every trigger register, the
    multi-channel trigger, the abort, the last datum, and the RP2350 count modes. */
module Channels {
  import opened Words
  import opened Core
  import opened Chip
  import Bits

  // ----- starting -----

  /** The data a count register asks for: RP2350 keeps a mode in the top four bits. */
  function Asked(v: Variant, reload: Word): Word {
    if v == Rp2350 then reload % 0x1000_0000 else reload
  }

  function ModeBits(v: Variant, reload: Word): Word {
    if v == Rp2350 then reload / 0x1000_0000 else 0
  }

  /** Idle, enabled, and with something to move. */
  predicate Startable(v: Variant, c: Chan) {
    c.ctrl % 2 == 1 && !c.busy && (Asked(v, c.reload) != 0 || ModeBits(v, c.reload) == 15)
  }

  /** A sequence at its start: all of the count to go, and no credit left from before. */
  function Begun(v: Variant, c: Chan): Chan {
    c.(busy := true, remaining := Asked(v, c.reload), mode := ModeBits(v, c.reload), credit := 0)
  }

  lemma TriggerBegins(d: Dma, i: int, depth: nat)
    requires d.Ok() && 0 <= i < SLOTS && depth <= MAX_DEPTH
    ensures Startable(d.v, d.ch[i]) ==> Trigger(d, i, depth) == d.(ch := d.ch[i := Begun(d.v, d.ch[i])])
    ensures d.ch[i].busy || d.ch[i].ctrl % 2 == 0 ==> Trigger(d, i, depth) == d
  {
    hide Complete;
  }

  /** A write to the last register of an alias row sets the field that row's register names, and a
      nonzero one starts the channel; a zero one starts nothing, and a quiet channel interrupts. */
  lemma TriggerWrites(d: Dma, i: int, r: int, val: Word, nonzero: bool)
    requires d.Ok() && 0 <= i < d.v.Channels() && (r == 0x0C || r == 0x1C || r == 0x2C || r == 0x3C)
    ensures var c := if r == 0x3C then d.ch[i].(readAddr := val) else if r == 0x2C then d.ch[i].(writeAddr := val)
                     else if r == 0x1C then d.ch[i].(reload := val) else d.ch[i].(ctrl := WithoutBusy(d.v, val));
            var e := RegWrite(d, i * STRIDE + r, val, nonzero);
            && (nonzero && Startable(d.v, c) ==> e == d.(ch := d.ch[i := Begun(d.v, c)]))
            && (nonzero && c.busy ==> e == d.(ch := d.ch[i := c]))
            && (!nonzero ==> e.ch == d.ch[i := c] &&
                             e.intr == d.intr + if QuietBit(d.v, d.ch[i].ctrl) then {i} else {})
  {
    hide Trigger;
    var c := if r == 0x3C then d.ch[i].(readAddr := val) else if r == 0x2C then d.ch[i].(writeAddr := val)
             else if r == 0x1C then d.ch[i].(reload := val) else d.ch[i].(ctrl := WithoutBusy(d.v, val));
    TriggerBegins(d.(ch := d.ch[i := c]), i, 0);
    assert (i * STRIDE + r) / STRIDE == i && (i * STRIDE + r) % STRIDE == r;
  }

  /** The read-only BUSY bit is not stored. */
  function WithoutBusy(v: Variant, val: Word): Word {
    var bit := if v == Rp2040 then 0x100_0000 else 0x400_0000;
    if val / bit % 2 == 1 then Wrap(val - bit) else val
  }

  ghost predicate AllStartable(d: Dma, val: Word)
    requires d.Ok()
  {
    forall j :: 0 <= j < d.v.Channels() && Bit(val, j) == 1 ==>
                  Startable(d.v, d.ch[j]) || d.ch[j].busy || d.ch[j].ctrl % 2 == 0
  }

  /** The multi-channel trigger starts exactly the idle enabled channels whose bits are set. */
  lemma {:induction false} MultiExact(d: Dma, val: Word, n: nat)
    requires d.Ok() && n <= d.v.Channels() && AllStartable(d, val)
    ensures var e := MultiTrigger(d, val, n);
            && e == d.(ch := e.ch)
            && forall j :: 0 <= j < SLOTS ==>
                 e.ch[j] == if j < n && Bit(val, j) == 1 && Startable(d.v, d.ch[j]) then Begun(d.v, d.ch[j])
                            else d.ch[j]
    decreases n
  {
    hide Trigger, Bit;
    if n > 0 {
      MultiExact(d, val, n - 1);
      TriggerBegins(MultiTrigger(d, val, n - 1), n - 1, 0);
    }
  }

  /** The abort register stops exactly the channels whose bits are set, with nothing to go. */
  lemma {:induction false} AbortExact(d: Dma, val: Word, n: nat)
    requires d.Ok() && n <= SLOTS
    ensures var e := Abort(d, val, n);
            && e == d.(ch := e.ch)
            && forall j :: 0 <= j < SLOTS ==>
                 e.ch[j] == if j < n && Bit(val, j) == 1 then d.ch[j].(busy := false, remaining := 0) else d.ch[j]
    decreases n
  {
    hide Bit;
    if n > 0 { AbortExact(d, val, n - 1); }
  }

  // ----- ending -----

  /** The channel named by CTRL's CHAIN_TO field. */
  function ChainOf(v: Variant, ctrl: Word): int {
    if v == Rp2040 then ctrl / 0x800 % 16 else ctrl / 0x2000 % 16
  }

  predicate QuietBit(v: Variant, ctrl: Word) {
    (if v == Rp2040 then ctrl / 0x20_0000 else ctrl / 0x80_0000) % 2 == 1
  }

  /** A finished sequence: its channel is idle and, unless quiet, interrupts; the channel it chains
      to, if another, starts. */
  lemma FinishExact(d: Dma, i: int)
    requires d.Ok() && 0 <= i < SLOTS && d.ch[i].mode != 1
    ensures var k := ChainOf(d.v, d.ch[i].ctrl);
            var d1 := d.(ch := d.ch[i := d.ch[i].(busy := false)],
                         intr := if QuietBit(d.v, d.ch[i].ctrl) then d.intr else d.intr + {i});
            && (k == i || k >= d.v.Channels() ==> Complete(d, i, 0) == d1)
            && (k != i && k < d.v.Channels() && Startable(d.v, d.ch[k]) ==>
                  Complete(d, i, 0) == d1.(ch := d1.ch[k := Begun(d.v, d.ch[k])]))
  {
    var k := Decode(d.v, d.ch[i].ctrl).chainTo;
    var d1 := Quieted(d.(ch := d.ch[i := d.ch[i].(busy := false)]), i, !Decode(d.v, d.ch[i].ctrl).quiet);
    hide Trigger;
    if k != i && k < d.v.Channels() { TriggerBegins(d1, k, 0); }
  }

  /** In the RP2350's trigger-self mode the finished channel starts over. */
  lemma SelfRestarts(d: Dma, i: int)
    requires d.Ok() && d.v == Rp2350 && 0 <= i < SLOTS && d.ch[i].mode == 1 && ChainOf(d.v, d.ch[i].ctrl) == i
    requires Startable(d.v, d.ch[i].(busy := false))
    ensures Complete(d, i, 0).ch == d.ch[i := Begun(d.v, d.ch[i])]
  {
    var d1 := Quieted(d.(ch := d.ch[i := d.ch[i].(busy := false)]), i, !Decode(d.v, d.ch[i].ctrl).quiet);
    hide Trigger;
    TriggerBegins(d1, i, 0);
  }

  /** The count-down after a datum: nothing in endless mode, one otherwise, and the end after the last;
      an RP2040 channel that writes its own count stands for ever. */
  lemma CountExact(d: Dma, i: int, to: Word)
    requires d.Ok() && 0 <= i < SLOTS
    ensures var c, own := d.ch[i], to - DMA - i * STRIDE;
            var suicide := d.v == Rp2040 && (own == 0x08 || own == 0x1C || own == 0x24 || own == 0x38);
            && (c.mode == 15 ==> Counted(d, i, to) == d)
            && (c.mode != 15 && !suicide && c.remaining > 1 ==>
                  Counted(d, i, to) == d.(ch := d.ch[i := c.(remaining := c.remaining - 1)]))
            && (c.mode != 15 && !suicide && c.remaining == 1 && c.busy ==>
                  Counted(d, i, to) == Complete(d.(ch := d.ch[i := c.(remaining := 0)]), i, 0))
            && (c.mode != 15 && suicide ==> !CanRun(d.v, Counted(d, i, to).ch[i]))
  {
    hide Complete, Decode;
  }

  // ----- the sniffer and address rings -----

  /** The sniffer adds the datum, with its bytes reversed if asked, while it is enabled and watches
      that channel; its other modes are refused. */
  lemma SniffExact(d: Dma, i: int, x: Word, size: int)
    requires d.Ok() && 0 <= i < 16 && (size == 1 || size == 2 || size == 4)
    ensures var on := d.sctl % 2 == 1 && d.sctl / 2 % 16 == i;
            && (!on ==> Sniff(d, i, x, size) == Done(d))
            && (on && d.sctl / 0x20 % 16 != 15 ==> Sniff(d, i, x, size) == Fault)
            && (on && d.sctl / 0x20 % 16 == 15 ==>
                  var y := if d.sctl / 0x200 % 2 == 1 then Words.Bswap(x, size) else x;
                  Sniff(d, i, x, size) == Done(d.(sdata := (d.sdata + y) % 0x1_0000_0000)))
  {
  }

  /** An address on a ring of 2^k bytes goes round inside its aligned block. */
  lemma RingExact(addr: Word, stride: Word, k: nat)
    requires 1 <= k <= 15
    ensures var p := Pow2(k);
            var a := Advance(addr, stride, p);
            p >= 1 && a / p == addr / p && a % p == (addr + stride) % p
  {
    var p, q := Pow2(k), Pow2(32 - k);
    Pow2Sum(k, 32 - k);
    Pow2At32();
    hide Pow2, Advance;
    RingStep(addr, stride, p, q);
  }

  lemma RingStep(addr: Word, stride: Word, p: int, q: int)
    requires p >= 1 && q >= 1 && p * q == M32
    ensures var a := Advance(addr, stride, p); a / p == addr / p && a % p == (addr + stride) % p
  {
    var x: int := addr + stride;
    var base, r := addr - addr % p, x % p;
    assert Add(addr, stride) % p == r by { NestedMod(x, p, q); }
    SplitMod(addr, p);
    BlockFits(addr, p, q);
    RingSum(base, r, addr / p, p);
  }

  lemma SplitMod(x: Word, p: int)
    requires p >= 1
    ensures 0 <= x - x % p == x / p * p
  {
  }

  lemma RingSum(base: int, r: int, b: int, p: int)
    requires p >= 1 && base == b * p && 0 <= r < p && 0 <= base && base + p <= M32
    ensures Wrap(base + r) == base + r && (base + r) / p == b && (base + r) % p == r
  {
    Bits.QuotientOf(base + r, p, b, r);
  }

  /** A remainder by a multiple keeps the remainder. */
  lemma NestedMod(x: int, p: int, q: int)
    requires p >= 1 && q >= 1 && p * q >= 1
    ensures x % (p * q) % p == x % p
  {
    var m := p * q;
    var k, y := x / m, x % m;
    var a, r := y / p, y % p;
    assert x == k * m + y && y == a * p + r;
    assert k * m == k * q * p;
    assert x == (k * q + a) * p + r;
    Bits.QuotientOf(x, p, k * q + a, r);
  }

  /** The block an address lies in ends below 2^32. */
  lemma BlockFits(addr: Word, p: int, q: int)
    requires p >= 1 && q >= 1 && p * q == M32
    ensures addr / p * p + p <= M32
  {
    var b := addr / p;
    assert b * p <= addr;
    if b >= q {
      Scaled(q, b, p);
      assert false;
    }
    Scaled(b + 1, q, p);
  }

  lemma Scaled(a: int, b: int, p: int)
    requires a <= b && p >= 1
    ensures a * p <= b * p
  {
    assert (b - a) * p >= 0;
  }
}
