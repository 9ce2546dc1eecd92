/** The transfer credits of a paced channel over every run (host/emu/dma.go, host/emu/machine.go):
    each pulse of its DREQ banks one, each datum spends one, and nothing else makes any. */
module Credits {
  import opened Words
  import opened Core
  import opened Chip

  function Treq(d: Dma, i: int): int
    requires d.Ok() && 0 <= i < SLOTS
  {
    Decode(d.v, d.ch[i].ctrl).treq
  }

  function Credit(m: Machine, i: int): int
    requires m.Ok() && 0 <= i < SLOTS
  {
    m.dma.ch[i].credit
  }

  /** The pulses a channel's pacing timer gives in the coming cycle: how often its divisor goes into
      what it has accrued. */
  function PulsesTo(d: Dma, i: int): (n: nat)
    requires d.Ok() && 0 <= i < SLOTS
  {
    var t := Treq(d, i) - TIMER0;
    if 0 <= t < 4 && d.timers[t].reg / 0x1_0000 != 0 && d.timers[t].reg % 0x1_0000 != 0 then
      assert d.timers[t].acc + d.timers[t].reg / 0x1_0000 >= 0;
      (d.timers[t].acc + d.timers[t].reg / 0x1_0000) / (d.timers[t].reg % 0x1_0000)
    else 0
  }

  /** The coming cycle moves a datum on channel i. */
  predicate Moves(m: Machine, i: int)
    requires m.Ok() && Step(m).Done?
  {
    Tick(m.dma, 4).Ready() != {} && Step(m).value.last == i
  }

  function Banked(c: int, n: int): int {
    if c + n <= 63 then c + n else if c <= 63 then 63 else c
  }

  // ----- the tick -----

  lemma {:induction false} PulsesBank(d: Dma, dreq: int, n: nat, i: int)
    requires d.Ok() && 0 <= i < SLOTS
    ensures var e := Pulses(d, dreq, n);
            e.ch[i] == d.ch[i].(credit := if Treq(d, i) == dreq then Banked(d.ch[i].credit, n) else d.ch[i].credit)
    decreases n
  {
    hide Decode;
    if n > 0 { PulsesBank(d, dreq, n - 1, i); }
  }

  /** The first n timers have ticked: those beyond are as before, and a channel has the pulses of its
      own timer if that is among them. */
  lemma {:induction false} TickBank(d: Dma, n: nat, i: int)
    requires d.Ok() && n <= 4 && 0 <= i < SLOTS
    ensures var e := Tick(d, n);
            && (forall t :: n <= t < 4 ==> e.timers[t] == d.timers[t])
            && e.ch[i] == d.ch[i].(credit := if Treq(d, i) - TIMER0 < n then Banked(d.ch[i].credit, PulsesTo(d, i))
                                             else d.ch[i].credit)
    decreases n
  {
    hide Decode;
    if n > 0 {
      TickBank(d, n - 1, i);
      var e := Tick(d, n - 1);
      var x := e.timers[n - 1];
      if x.Active() {
        var e' := e.(timers := e.timers[n - 1 := TickAcc(x)]);
        assert TickPulses(x) >= 0;
        PulsesBank(e', TIMER0 + n - 1, TickPulses(x), i);
      }
    }
  }

  // ----- triggers -----

  /** A channel's credit is kept, or lost to a trigger. */
  ghost predicate KeptOrLost(d: Dma, e: Dma)
    requires d.Ok() && e.Ok()
  {
    forall i :: 0 <= i < SLOTS ==> e.ch[i].credit == d.ch[i].credit || e.ch[i].credit == 0
  }

  lemma {:induction false} TriggerLoses(d: Dma, j: int, depth: nat)
    requires d.Ok() && 0 <= j < SLOTS && depth <= MAX_DEPTH
    ensures KeptOrLost(d, Trigger(d, j, depth))
    decreases MAX_DEPTH - depth, 0
  {
    hide Decode;
    var c := d.ch[j];
    if Flag(c.ctrl, 1) && !c.busy && d.v.Count(c.reload) == 0 && d.v.Mode(c.reload) != ENDLESS && depth < MAX_DEPTH {
      CompleteLoses(d.(ch := d.ch[j := c.(mode := d.v.Mode(c.reload), credit := 0)]), j, depth + 1);
    }
  }

  lemma {:induction false} CompleteLoses(d: Dma, j: int, depth: nat)
    requires d.Ok() && 0 <= j < SLOTS && depth <= MAX_DEPTH
    ensures KeptOrLost(d, Complete(d, j, depth))
    decreases MAX_DEPTH - depth, 1
  {
    hide Decode, Trigger;
    var f := Decode(d.v, d.ch[j].ctrl);
    var d1 := Quieted(d.(ch := d.ch[j := d.ch[j].(busy := false)]), j, !f.quiet);
    var d2 := if f.chainTo != j && f.chainTo < d.v.Channels() then Trigger(d1, f.chainTo, depth) else d1;
    if f.chainTo != j && f.chainTo < d.v.Channels() { TriggerLoses(d1, f.chainTo, depth); }
    if d2.ch[j].mode == TRIGGER_SELF { TriggerLoses(d2, j, depth); }
  }

  lemma {:induction false} MultiLoses(d: Dma, val: Word, n: nat)
    requires d.Ok() && n <= SLOTS
    ensures KeptOrLost(d, MultiTrigger(d, val, n))
  {
    hide Trigger, Bit;
    if n > 0 {
      MultiLoses(d, val, n - 1);
      TriggerLoses(MultiTrigger(d, val, n - 1), n - 1, 0);
    }
  }

  lemma {:induction false} AbortKeeps(d: Dma, val: Word, n: nat)
    requires d.Ok() && n <= SLOTS
    ensures KeptOrLost(d, Abort(d, val, n))
  {
    hide Bit;
    if n > 0 { AbortKeeps(d, val, n - 1); }
  }

  lemma {:induction false} RegLoses(d: Dma, off: int, val: Word, nonzero: bool)
    requires d.Ok() && off >= 0
    ensures KeptOrLost(d, RegWrite(d, off, val, nonzero))
  {
    hide Trigger, MultiTrigger, Abort;
    MultiLoses(d, val, d.v.Channels());
    AbortKeeps(d, val, d.v.Channels());
    if off < d.v.Channels() * STRIDE {
      var j := off / STRIDE;
      TriggerLoses(d.(ch := d.ch[j := WriteField(d.ch[j], d.v, FieldAt(off % STRIDE), val)]), j, 0);
    }
  }

  /** A busy channel is not touched by triggers, however they arrive. */
  lemma {:induction false} TriggerSpares(d: Dma, j: int, depth: nat, i: int)
    requires d.Ok() && 0 <= j < SLOTS && depth <= MAX_DEPTH && 0 <= i < SLOTS && d.ch[i].busy
    ensures Trigger(d, j, depth).ch[i] == d.ch[i]
    decreases MAX_DEPTH - depth, 0
  {
    hide Decode;
    var c := d.ch[j];
    if Flag(c.ctrl, 1) && !c.busy && d.v.Count(c.reload) == 0 && d.v.Mode(c.reload) != ENDLESS && depth < MAX_DEPTH {
      CompleteSpares(d.(ch := d.ch[j := c.(mode := d.v.Mode(c.reload), credit := 0)]), j, depth + 1, i);
    }
  }

  lemma {:induction false} CompleteSpares(d: Dma, j: int, depth: nat, i: int)
    requires d.Ok() && 0 <= j < SLOTS && depth <= MAX_DEPTH && 0 <= i < SLOTS && d.ch[i].busy && i != j
    ensures Complete(d, j, depth).ch[i] == d.ch[i]
    decreases MAX_DEPTH - depth, 1
  {
    hide Decode, Trigger;
    var f := Decode(d.v, d.ch[j].ctrl);
    var d1 := Quieted(d.(ch := d.ch[j := d.ch[j].(busy := false)]), j, !f.quiet);
    var d2 := if f.chainTo != j && f.chainTo < d.v.Channels() then Trigger(d1, f.chainTo, depth) else d1;
    if f.chainTo != j && f.chainTo < d.v.Channels() { TriggerSpares(d1, f.chainTo, depth, i); }
    if d2.ch[j].mode == TRIGGER_SELF { TriggerSpares(d2, j, depth, i); }
  }

  lemma {:induction false} MultiSpares(d: Dma, val: Word, n: nat, i: int)
    requires d.Ok() && n <= SLOTS && 0 <= i < SLOTS && d.ch[i].busy
    ensures MultiTrigger(d, val, n).ch[i] == d.ch[i]
  {
    hide Trigger, Bit;
    if n > 0 {
      MultiSpares(d, val, n - 1, i);
      TriggerSpares(MultiTrigger(d, val, n - 1), n - 1, 0, i);
    }
  }

  /** The address is channel i's own register, or the abort register. */
  predicate Disturbs(v: Variant, i: int, addr: int) {
    InRegs(addr) &&
    ((addr - DMA) % 0x1000 == v.AbortOff() || i * STRIDE <= (addr - DMA) % 0x1000 < i * STRIDE + STRIDE)
  }

  lemma {:induction false} RegSpares(d: Dma, off: int, val: Word, nonzero: bool, i: int)
    requires d.Ok() && off >= 0 && 0 <= i < SLOTS && d.ch[i].busy
    requires off != d.v.AbortOff() && !(i * STRIDE <= off < i * STRIDE + STRIDE)
    ensures RegWrite(d, off, val, nonzero).ch[i] == d.ch[i]
  {
    hide Trigger, MultiTrigger, Abort;
    MultiSpares(d, val, d.v.Channels(), i);
    if off < d.v.Channels() * STRIDE {
      var j := off / STRIDE;
      TriggerSpares(d.(ch := d.ch[j := WriteField(d.ch[j], d.v, FieldAt(off % STRIDE), val)]), j, 0, i);
    }
  }

  // ----- a transfer -----

  /** What a transfer on channel k leaves of channel i's credit before any trigger. */
  function Spent(d: Dma, k: int, i: int): int
    requires d.Ok() && 0 <= i < SLOTS
  {
    var c := d.ch[i].credit;
    if k == i && Treq(d, i) != PERMANENT && c > 0 then c - 1 else c
  }

  lemma {:induction false} WriteLoses(m: Machine, addr: Word, val: Word, size: int)
    requires m.Ok() && (size == 1 || size == 2 || size == 4) && BusWrite(m, addr, val, size).Done?
    ensures KeptOrLost(m.dma, BusWrite(m, addr, val, size).value.dma)
  {
    hide RegWrite, RegRead, Alias, PutField;
    if InRegs(addr) && !InSram(m.dma.v, addr, size) {
      var off := (addr - DMA) % 0x1000;
      RegLoses(m.dma, off, Alias((addr - DMA) / 0x1000, RegRead(m.dma, off), val), val != 0);
    }
  }

  lemma {:induction false} LandedLoses(m: Machine, k: int, x: Word, to: Word, size: int)
    requires m.Ok() && 0 <= k < SLOTS && (size == 1 || size == 2 || size == 4) && Landed(m, k, x, to, size).Done?
    ensures KeptOrLost(m.dma, Landed(m, k, x, to, size).value.dma)
  {
    hide Decode, Complete, Words.Bswap, Add;
    var g := Decode(m.dma.v, m.dma.ch[k].ctrl);
    var d := if g.sniffEn then Sniff(m.dma, k, x, size).value else m.dma;
    var d1 := d.(ch := d.ch[k := Moved(d.ch[k], g)]);
    var c := d1.ch[k];
    var c1 := if c.remaining > 0 then c.(remaining := c.remaining - 1) else c;
    CompleteLoses(d1.(ch := d1.ch[k := c1]), k, 0);
  }

  /** A datum on channel k spends one credit of k, if it is paced, and triggers may lose credits. */
  lemma {:induction false} TransferSpends(m: Machine, k: int, i: int)
    requires m.Ok() && 0 <= k < SLOTS && 0 <= i < SLOTS && Transfer(m, k).Done?
    ensures Credit(Transfer(m, k).value, i) == Spent(m.dma, k, i) || Credit(Transfer(m, k).value, i) == 0
  {
    hide Decode, BusRead, BusWrite, Landed, Words.Bswap;
    var c := m.dma.ch[k];
    var f := Decode(m.dma.v, c.ctrl);
    var spent := m.dma.(ch := m.dma.ch[k := c.(credit := c.credit - 1)]);
    var m1 := m.(dma := if f.treq != PERMANENT && c.credit > 0 then spent else m.dma);
    var size := Size(f.sizeLog);
    var x := BusRead(m1, c.readAddr, size).value;
    var x1 := if f.bswap then Words.Bswap(x, size) else x;
    WriteLoses(m1, c.writeAddr, x1, size);
    LandedLoses(BusWrite(m1, c.writeAddr, x1, size).value, k, x1, c.writeAddr, size);
  }

  /** Channel i's sequence goes on: it is busy, channel k's datum lands neither in its registers nor
      in the abort register, and it is not the last of the sequence. */
  predicate GoesOn(d: Dma, k: int, i: int)
    requires d.Ok() && 0 <= i < SLOTS && 0 <= k < SLOTS
  {
    && d.ch[i].busy && !Disturbs(d.v, i, d.ch[k].writeAddr)
    && (k == i ==> d.ch[i].remaining > 1 || d.ch[i].mode == ENDLESS)
  }

  lemma {:induction false} WriteSpares(m: Machine, addr: Word, val: Word, size: int, i: int)
    requires m.Ok() && (size == 1 || size == 2 || size == 4) && BusWrite(m, addr, val, size).Done?
    requires 0 <= i < SLOTS && m.dma.ch[i].busy && !Disturbs(m.dma.v, i, addr)
    ensures BusWrite(m, addr, val, size).value.dma.ch[i] == m.dma.ch[i]
  {
    hide RegWrite, RegRead, Alias, PutField;
    if InRegs(addr) && !InSram(m.dma.v, addr, size) {
      var off := (addr - DMA) % 0x1000;
      RegSpares(m.dma, off, Alias((addr - DMA) / 0x1000, RegRead(m.dma, off), val), val != 0, i);
    }
  }

  /** The same channel, somewhere else in its sequence. */
  predicate SameSequence(c: Chan, c': Chan) {
    c' == c.(readAddr := c'.readAddr, writeAddr := c'.writeAddr, remaining := c'.remaining)
  }

  lemma {:induction false} LandedSpares(m: Machine, k: int, x: Word, to: Word, size: int, i: int)
    requires m.Ok() && 0 <= k < SLOTS && (size == 1 || size == 2 || size == 4) && Landed(m, k, x, to, size).Done?
    requires 0 <= i < SLOTS && m.dma.ch[i].busy && !Disturbs(m.dma.v, i, to)
    requires k == i ==> m.dma.ch[i].remaining > 1 || m.dma.ch[i].mode == ENDLESS
    ensures var e := Landed(m, k, x, to, size).value.dma;
            && SameSequence(m.dma.ch[i], e.ch[i])
            && (k != i ==> e.ch[i] == m.dma.ch[i])
            && e.ch[i].remaining == m.dma.ch[i].remaining - if k == i && m.dma.ch[i].mode != ENDLESS then 1 else 0
  {
    hide Decode, Complete, Words.Bswap, Add, Advance;
    var g := Decode(m.dma.v, m.dma.ch[k].ctrl);
    var d := if g.sniffEn then Sniff(m.dma, k, x, size).value else m.dma;
    var d1 := d.(ch := d.ch[k := Moved(d.ch[k], g)]);
    var c := d1.ch[k];
    var c1 := if c.remaining > 0 then c.(remaining := c.remaining - 1) else c;
    if k != i {
      CompleteSpares(d1.(ch := d1.ch[k := c1]), k, 0, i);
    } else {
      OwnOffset(m.dma.v, i, to);
    }
  }

  lemma OwnOffset(v: Variant, i: int, to: int)
    requires 0 <= i < SLOTS && !Disturbs(v, i, to)
    ensures !(0 <= to - DMA - i * STRIDE < STRIDE)
  {
  }

  /** While its sequence goes on, exactly the credit of the datum is spent. */
  lemma {:induction false} TransferKeeps(m: Machine, k: int, i: int)
    requires m.Ok() && 0 <= k < SLOTS && 0 <= i < SLOTS && Transfer(m, k).Done? && GoesOn(m.dma, k, i)
    ensures var c, c' := m.dma.ch[i], Transfer(m, k).value.dma.ch[i];
            && c'.credit == Spent(m.dma, k, i) && SameSequence(c.(credit := c'.credit), c')
            && c'.remaining == c.remaining - if k == i && c.mode != ENDLESS then 1 else 0
  {
    hide Decode, BusRead, BusWrite, Landed, Words.Bswap, Disturbs;
    var c := m.dma.ch[k];
    var f := Decode(m.dma.v, c.ctrl);
    var spent := m.dma.(ch := m.dma.ch[k := c.(credit := c.credit - 1)]);
    var m1 := m.(dma := if f.treq != PERMANENT && c.credit > 0 then spent else m.dma);
    var size := Size(f.sizeLog);
    var x := BusRead(m1, c.readAddr, size).value;
    var x1 := if f.bswap then Words.Bswap(x, size) else x;
    WriteSpares(m1, c.writeAddr, x1, size, i);
    LandedSpares(BusWrite(m1, c.writeAddr, x1, size).value, k, x1, c.writeAddr, size, i);
  }

  // ----- a cycle -----

  function One(b: bool): int {
    if b then 1 else 0
  }

  /** The channel granted, once the timers have ticked. */
  lemma {:induction false} Granted(m: Machine)
    requires m.Ok() && Step(m).Done? && Tick(m.dma, 4).Ready() != {}
    ensures var d, k := Tick(m.dma, 4), Step(m).value.last;
            && 0 <= k < SLOTS && CanRun(d.v, d.ch[k])
            && Step(m) == Transfer(m.(dma := d, cycle := m.cycle + 1, last := k), k)
  {
    hide Tick, Transfer, CanRun, Pick, Favoured, Dma.High;
    var d := Tick(m.dma, 4);
    SomeReady(d);
    var k := Pick(Favoured(d), m.last);
    var q := m.(dma := d, cycle := m.cycle + 1, last := k);
    assert Step(m) == Transfer(q, k);
    assert k in d.Ready();
  }

  /** A paced channel has no more credit than its pulses gave it, less what it moved. */
  lemma {:induction false} StepCredit(m: Machine, i: int)
    requires m.Ok() && 0 <= i < SLOTS && Step(m).Done? && Treq(m.dma, i) != PERMANENT && Credit(m, i) >= 0
    ensures 0 <= Credit(Step(m).value, i)
    ensures Credit(Step(m).value, i) + One(Moves(m, i)) <= Credit(m, i) + PulsesTo(m.dma, i)
  {
    var d := Tick(m.dma, 4);
    TickBank(m.dma, 4, i);
    hide Tick, Decode, Transfer, PulsesTo;
    if d.Ready() != {} {
      Granted(m);
      var k := Step(m).value.last;
      hide Step;
      TransferSpends(m.(dma := d, cycle := m.cycle + 1, last := k), k, i);
    }
  }

  /** Channel i's sequence goes on through the coming cycle. */
  predicate Continues(m: Machine, i: int)
    requires m.Ok() && 0 <= i < SLOTS
  {
    && m.dma.ch[i].busy && Step(m).Done?
    && (Tick(m.dma, 4).Ready() != {} ==>
          0 <= Step(m).value.last < SLOTS && GoesOn(Tick(m.dma, 4), Step(m).value.last, i))
  }

  /** And then its credit is exact, up to the counter's limit, and so is its count. */
  lemma {:induction false} StepExact(m: Machine, i: int)
    requires m.Ok() && 0 <= i < SLOTS && Continues(m, i) && Treq(m.dma, i) != PERMANENT && Credit(m, i) >= 0
    ensures var c, c' := m.dma.ch[i], Step(m).value.dma.ch[i];
            && c'.credit == Banked(c.credit, PulsesTo(m.dma, i)) - One(Moves(m, i))
            && SameSequence(c.(credit := c'.credit), c')
            && (c.mode != ENDLESS ==> c'.remaining == c.remaining - One(Moves(m, i)))
  {
    var d := Tick(m.dma, 4);
    TickBank(m.dma, 4, i);
    hide Tick, Decode, Transfer, PulsesTo, Disturbs;
    if d.Ready() != {} {
      Granted(m);
      var k := Step(m).value.last;
      hide Step;
      TransferKeeps(m.(dma := d, cycle := m.cycle + 1, last := k), k, i);
    }
  }

  // ----- runs -----

  /** n cycles without a fault, in which channel i is always paced. */
  predicate Paced(m: Machine, i: int, n: nat)
    requires m.Ok() && 0 <= i < SLOTS
    decreases n
  {
    n > 0 ==> Treq(m.dma, i) != PERMANENT && Step(m).Done? && Paced(Step(m).value, i, n - 1)
  }

  /** The data channel i moves, and the pulses it receives, in n cycles. */
  function Data(m: Machine, i: int, n: nat): nat
    requires m.Ok() && 0 <= i < SLOTS && Paced(m, i, n)
    decreases n
  {
    if n == 0 then 0 else One(Moves(m, i)) + Data(Step(m).value, i, n - 1)
  }

  function Received(m: Machine, i: int, n: nat): nat
    requires m.Ok() && 0 <= i < SLOTS && Paced(m, i, n)
    decreases n
  {
    if n == 0 then 0 else PulsesTo(m.dma, i) + Received(Step(m).value, i, n - 1)
  }

  /** Over every run a paced channel moves no more data than its credit and its pulses pay for,
      whatever is written, triggered or aborted meanwhile. */
  lemma {:induction false} WordsPaid(m: Machine, i: int, n: nat)
    requires m.Ok() && 0 <= i < SLOTS && Paced(m, i, n) && Credit(m, i) >= 0
    ensures Steps(m, n).Done? && 0 <= Credit(Steps(m, n).value, i)
    ensures Credit(Steps(m, n).value, i) + Data(m, i, n) <= Credit(m, i) + Received(m, i, n)
    decreases n
  {
    hide Step, Treq, PulsesTo, Moves;
    if n > 0 {
      StepCredit(m, i);
      WordsPaid(Step(m).value, i, n - 1);
      StepsFront(m, n);
    }
  }

  /** n cycles in which channel i's sequence goes on and its counter stays within its limit. */
  predicate Sustained(m: Machine, i: int, n: nat)
    requires m.Ok() && 0 <= i < SLOTS
    decreases n
  {
    n > 0 ==> Continues(m, i) && Credit(m, i) + PulsesTo(m.dma, i) <= 63 && Sustained(Step(m).value, i, n - 1)
  }

  /** Between two triggers, with the counter below its limit, credit, pulses and data balance, and
      the count goes down by the data moved. */
  lemma {:induction false} CreditBalances(m: Machine, i: int, n: nat)
    requires m.Ok() && 0 <= i < SLOTS && Sustained(m, i, n) && Treq(m.dma, i) != PERMANENT && Credit(m, i) >= 0
    ensures Paced(m, i, n) && Steps(m, n).Done?
    ensures Credit(Steps(m, n).value, i) + Data(m, i, n) == Credit(m, i) + Received(m, i, n)
    ensures var c, c' := m.dma.ch[i], Steps(m, n).value.dma.ch[i];
            && SameSequence(c.(credit := c'.credit), c')
            && (c.mode != ENDLESS ==> c'.remaining == c.remaining - Data(m, i, n))
    decreases n
  {
    hide Step, PulsesTo, Moves, Tick, Decode;
    if n > 0 {
      StepCredit(m, i);
      StepExact(m, i);
      CreditBalances(Step(m).value, i, n - 1);
      StepsFront(m, n);
    }
  }

  /** One pulse moves one word: a channel without credit waits until its timer pulses. */
  lemma {:induction false} NoCreditWaits(m: Machine, i: int)
    requires m.Ok() && 0 <= i < SLOTS && Step(m).Done? && Treq(m.dma, i) != PERMANENT
    requires Credit(m, i) == 0 && PulsesTo(m.dma, i) == 0
    ensures !Moves(m, i)
  {
    StepCredit(m, i);
  }
}
