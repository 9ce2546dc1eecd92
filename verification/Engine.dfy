/** The DMA block as the emulator runs it: the decoded CTRL fields, the ready, priority and
    listener masks and the timer schedule are cached, and every operation keeps the caches equal
    to what would be recomputed while doing exactly what the cacheless machine does. */
module Engine {
  import opened Words
  import opened Core
  import opened Chip
  import opened Pacing
  import opened Bursts

  // ----- caches -----

  /** What the emulator derives from the channel registers and keeps up to date. */
  datatype Cache = Cache(dec: seq<Decoded>, ready: set<int>, hp: set<int>, listen: seq<set<int>>)

  ghost function Listeners(v: Variant, ch: seq<Chan>, t: int): set<int>
    requires |ch| == SLOTS
  {
    set i | 0 <= i < SLOTS && Decode(v, ch[i].ctrl).treq == TIMER0 + t
  }

  ghost function Decodes(v: Variant, ch: seq<Chan>): (r: seq<Decoded>)
    requires |ch| == SLOTS
    ensures |r| == SLOTS && forall i :: 0 <= i < SLOTS ==> r[i] == Decode(v, ch[i].ctrl)
  {
    seq(SLOTS, i requires 0 <= i < SLOTS => Decode(v, ch[i].ctrl))
  }

  ghost function Recomputed(v: Variant, ch: seq<Chan>): (k: Cache)
    requires |ch| == SLOTS
  {
    Cache(Decodes(v, ch), set i | 0 <= i < SLOTS && CanRun(v, ch[i]), set i | 0 <= i < SLOTS && Flag(ch[i].ctrl, 2),
          [Listeners(v, ch, 0), Listeners(v, ch, 1), Listeners(v, ch, 2), Listeners(v, ch, 3)])
  }

  function Marked(mask: set<int>, i: int, on: bool): set<int> {
    if on then mask + {i} else mask - {i}
  }

  /** The ready test as the emulator makes it, from the decoded fields. */
  predicate CanRunDecoded(f: Decoded, c: Chan) {
    !c.wedged && c.busy && Flag(c.ctrl, 1) && (f.treq == PERMANENT || c.credit > 0)
  }

  function ReadyUpdated(k: Cache, i: int, c: Chan): Cache
    requires |k.dec| == SLOTS && 0 <= i < SLOTS
  {
    k.(ready := Marked(k.ready, i, CanRunDecoded(k.dec[i], c)))
  }

  function CtrlUpdated(v: Variant, k: Cache, i: int, c: Chan): Cache
    requires |k.dec| == SLOTS && |k.listen| == 4 && 0 <= i < SLOTS
  {
    var f, l := Decode(v, c.ctrl), k.listen;
    ReadyUpdated(Cache(k.dec[i := f], k.ready, Marked(k.hp, i, Flag(c.ctrl, 2)),
                       [Marked(l[0], i, f.treq == TIMER0), Marked(l[1], i, f.treq == TIMER0 + 1),
                        Marked(l[2], i, f.treq == TIMER0 + 2), Marked(l[3], i, f.treq == TIMER0 + 3)]), i, c)
  }

  /** Updating one channel's ready bit is enough when its CTRL has not changed. */
  lemma ReadyExact(v: Variant, ch: seq<Chan>, i: int, c: Chan)
    requires |ch| == SLOTS && 0 <= i < SLOTS && c.ctrl == ch[i].ctrl
    ensures ReadyUpdated(Recomputed(v, ch), i, c) == Recomputed(v, ch[i := c])
  {
    hide Decode;
    var k, k' := Recomputed(v, ch), Recomputed(v, ch[i := c]);
    assert forall t :: Listeners(v, ch, t) == Listeners(v, ch[i := c], t);
    assert k.dec == k'.dec;
  }

  /** Refreshing one channel's share of every cache is enough after any change to it. */
  lemma CtrlExact(v: Variant, ch: seq<Chan>, i: int, c: Chan)
    requires |ch| == SLOTS && 0 <= i < SLOTS
    ensures CtrlUpdated(v, Recomputed(v, ch), i, c) == Recomputed(v, ch[i := c])
  {
    hide Decode;
    var k' := Recomputed(v, ch[i := c]);
    assert forall t :: Marked(Listeners(v, ch, t), i, Decode(v, c.ctrl).treq == TIMER0 + t)
             == Listeners(v, ch[i := c], t);
    assert CtrlUpdated(v, Recomputed(v, ch), i, c).dec == k'.dec;
  }

  // ----- timers -----

  /** The earliest pulse of the first n timers. */
  function Earliest(slots: seq<Slot>, n: nat): Due
    requires n <= |slots|
  {
    if n == 0 then Never
    else
      var d, e := Earliest(slots, n - 1), slots[n - 1].next;
      if e.Never? then d else if d.Never? || e.cycle < d.cycle then e else d
  }

  ghost predicate InStep(slots: seq<Slot>, now: nat) {
    |slots| == 4 && forall t :: 0 <= t < 4 ==> slots[t].Ok(now)
  }

  ghost predicate Started(slots: seq<Slot>, now: nat) {
    |slots| == 4 && forall t :: 0 <= t < 4 ==> slots[t].last <= now
  }

  function Timers(slots: seq<Slot>, now: nat): (ts: seq<Timer>)
    requires Started(slots, now)
    ensures |ts| == 4 && forall t :: 0 <= t < 4 ==> ts[t] == slots[t].Now(now)
  {
    [slots[0].Now(now), slots[1].Now(now), slots[2].Now(now), slots[3].Now(now)]
  }

  lemma NoPulses(d: Dma, dreq: int)
    requires d.Ok()
    ensures Pulses(d, dreq, 0) == d
  {
  }

  const OFF: Chan := Chan(0, 0, 0, 0, 0, 0, false, false, 0)
  const ZERO_DECODED: Decoded := Decoded(false, false, 0, 0, 0, 0, 0, 0, 0, false, false, false)

  /** A machine as it is made. */
  function Reset(v: Variant): (m: Machine)
    ensures m.Ok()
  {
    Machine(Dma(v, seq(SLOTS, i => OFF), seq(4, i => Timer(0, 0)), 0, 0, {}), map[], 0, 0)
  }

  lemma ResetCaches(v: Variant, ch: seq<Chan>, k: Cache)
    requires ch == seq(SLOTS, i => OFF) && k == Cache(seq(SLOTS, i => ZERO_DECODED), {}, {}, [{}, {}, {}, {}])
    ensures k == Recomputed(v, ch)
  {
    ZeroDecodes(v);
    hide Decode;
    assert forall i :: 0 <= i < SLOTS ==> ch[i] == OFF;
    assert !CanRun(v, OFF);
    assert Decodes(v, ch) == k.dec;
    assert Listeners(v, ch, 0) == {} && Listeners(v, ch, 1) == {};
    assert Listeners(v, ch, 2) == {} && Listeners(v, ch, 3) == {};
  }

  lemma ZeroDecodes(v: Variant)
    ensures Decode(v, 0) == ZERO_DECODED && !Flag(0, 1) && !Flag(0, 2)
  {
    forall w ensures !Flag(0, w) { ZeroField(w, 2); }
    ZeroField(v.RingSize(), 16); ZeroField(v.ChainTo(), 16); ZeroField(v.TreqSel(), 64);
    hide Flag;
  }

  lemma ZeroField(w: int, m: int)
    requires m > 0
    ensures w > 0 ==> 0 / w % m == 0
  {
    if w > 0 { assert 0 / w == 0; }
  }

  lemma ResetTimers(slots: seq<Slot>)
    requires slots == seq(4, i => Slot(0, 0, 0, Never))
    ensures InStep(slots, 0) && Started(slots, 0) && Earliest(slots, 4) == Never
    ensures Timers(slots, 0) == seq(4, i => Timer(0, 0))
  {
    assert Earliest(slots, 1) == Never;
    assert Earliest(slots, 2) == Never;
    assert Earliest(slots, 3) == Never;
  }

  class Emulator {
    const v: Variant
    var ch: seq<Chan>
    var sctl: Word
    var sdata: Word
    var intr: set<int>
    var depth: nat                  // zero-length cascades in progress
    var k: Cache
    var slots: seq<Slot>
    var soonest: Due
    var cycle: nat
    var mem: map<int, Word>
    var last: int                   // the last channel granted

    /** Everything zero: the caches of a cleared register block are cleared caches. */
    constructor (v: Variant)
      ensures this.v == v && Running() && Mach() == Reset(v)
    {
      this.v := v;
      ch := seq(SLOTS, i => OFF);
      sctl, sdata, intr, depth := 0, 0, {}, 0;
      k := Cache(seq(SLOTS, i => ZERO_DECODED), {}, {}, [{}, {}, {}, {}]);
      slots := seq(4, i => Slot(0, 0, 0, Never));
      soonest, cycle, mem, last := Never, 0, map[], 0;
      new;
      ResetCaches(v, ch, k);
      ResetTimers(slots);
    }

    ghost predicate Cached()
      reads this
    {
      |ch| == SLOTS && k == Recomputed(v, ch) && Started(slots, cycle)
    }

    ghost predicate Valid()
      reads this
    {
      Cached() && InStep(slots, cycle) && soonest == Earliest(slots, 4) && depth == 0
    }

    /** The cacheless block this one stands for. */
    function View(): (d: Dma)
      reads this
      requires Cached()
      ensures d.Ok()
    {
      Dma(v, ch, Timers(slots, cycle), sctl, sdata, intr)
    }

    /** Stores a channel whose CTRL is unchanged and refreshes its ready bit. */
    method SetChan(i: int, c: Chan)
      requires Cached() && 0 <= i < SLOTS && c.ctrl == ch[i].ctrl
      modifies `ch, `k
      ensures Cached() && ch == old(ch)[i := c]
    {
      ReadyExact(v, ch, i, c);
      ch := ch[i := c];
      k := ReadyUpdated(k, i, c);
    }

    /** Stores a channel whose CTRL may have changed and refreshes everything derived from it. */
    method CtrlChanged(i: int, c: Chan)
      requires Cached() && 0 <= i < SLOTS
      modifies `ch, `k
      ensures Cached() && ch == old(ch)[i := c]
    {
      CtrlExact(v, ch, i, c);
      ch := ch[i := c];
      k := CtrlUpdated(v, k, i, c);
    }

    // ----- triggers -----

    method Trigger(i: int)
      requires Cached() && 0 <= i < SLOTS && depth <= MAX_DEPTH
      modifies `ch, `k, `intr, `depth
      ensures Cached() && depth == old(depth)
      ensures View() == Chip.Trigger(old(View()), i, old(depth))
      decreases MAX_DEPTH - depth, 0
    {
      hide Recomputed, Decode, Flag;
      var c := ch[i];
      if !Flag(c.ctrl, 1) || c.busy { return; }
      var count := v.Count(c.reload);
      c := c.(mode := v.Mode(c.reload), credit := 0);
      if count == 0 && c.mode != ENDLESS {
        SetChan(i, c);
        depth := depth + 1;
        if depth <= MAX_DEPTH { Complete(i); }
        depth := depth - 1;
      } else {
        SetChan(i, c.(busy := true, remaining := count));
      }
    }

    method Complete(i: int)
      requires Cached() && 0 <= i < SLOTS && depth <= MAX_DEPTH
      modifies `ch, `k, `intr, `depth
      ensures Cached() && depth == old(depth)
      ensures View() == Chip.Complete(old(View()), i, old(depth))
      decreases MAX_DEPTH - depth, 1
    {
      SetChan(i, ch[i].(busy := false));
      if !k.dec[i].quiet { intr := intr + {i}; }
      var to := k.dec[i].chainTo;
      if to != i && to < v.Channels() { Trigger(to); }
      if ch[i].mode == TRIGGER_SELF { Trigger(i); }
    }

    method TriggerValue(i: int, nonzero: bool, quietCtrl: Word)
      requires Cached() && 0 <= i < SLOTS && depth == 0
      modifies `ch, `k, `intr, `depth
      ensures Cached() && depth == 0
      ensures View() == Chip.TriggerValue(old(View()), i, nonzero, quietCtrl)
    {
      if !nonzero {
        if Flag(quietCtrl, v.Quiet()) { intr := intr + {i}; }
      } else {
        Trigger(i);
      }
    }

    // ----- register writes -----

    method ChanWrite(i: int, r: int, val: Word, nonzero: bool)
      requires Cached() && 0 <= i < SLOTS && depth == 0
      modifies `ch, `k, `intr, `depth
      ensures Cached() && depth == 0
      ensures View() == Chip.ChanWrite(old(View()), i, r, val, nonzero)
    {
      var c := ch[i];
      var prev := c.ctrl;
      match FieldAt(r) {
        case ReadAddr => SetChan(i, c.(readAddr := val));
        case WriteAddr => SetChan(i, c.(writeAddr := val));
        case TransCount => SetChan(i, c.(reload := val));
        case Ctrl => CtrlChanged(i, c.(ctrl := if Flag(val, v.Busy()) then Wrap(val - v.Busy()) else val));
        case NoField => assert ch[i := c] == ch;
      }
      assert ch == old(ch)[i := WriteField(c, v, FieldAt(r), val)];
      if IsTrigger(r) { TriggerValue(i, nonzero, prev); }
    }

    method MultiTrigger(val: Word)
      requires Cached() && depth == 0
      modifies `ch, `k, `intr, `depth
      ensures Cached() && depth == 0
      ensures View() == Chip.MultiTrigger(old(View()), val, v.Channels())
    {
      for i := 0 to v.Channels()
        invariant Cached() && depth == 0
        invariant View() == Chip.MultiTrigger(old(View()), val, i)
      {
        if Bit(val, i) == 1 { Trigger(i); }
      }
    }

    method Abort(val: Word)
      requires Cached()
      modifies `ch, `k
      ensures Cached()
      ensures View() == Chip.Abort(old(View()), val, v.Channels())
    {
      for i := 0 to v.Channels()
        invariant Cached()
        invariant View() == Chip.Abort(old(View()), val, i)
      {
        if Bit(val, i) == 1 { SetChan(i, ch[i].(busy := false, remaining := 0)); }
      }
    }

    method TimerMin()
      requires |slots| == 4
      modifies `soonest
      ensures soonest == Earliest(slots, 4)
    {
      soonest := Never;
      for t := 0 to 4
        invariant soonest == Earliest(slots, t)
      {
        var e := slots[t].next;
        if e.At? && (soonest.Never? || e.cycle < soonest.cycle) { soonest := e; }
      }
    }

    /** A TIMER write restarts the schedule from the stored accumulator. */
    method TimerWrite(t: int, val: Word)
      requires Valid() && 0 <= t < 4
      modifies `slots, `soonest
      ensures Valid() && slots == old(slots)[t := Rewrite(old(slots[t]), val, cycle)]
    {
      slots := slots[t := Rewrite(slots[t], val, cycle)];
      TimerMin();
    }

    /** A write here would drop a timer's accrued fraction. */
    ghost predicate Drops(off: int)
      reads this
      requires Cached()
    {
      IsTimer(v, off) && var s := slots[(off - v.TimerOff()) / 4]; s.Active() && s.last < cycle
    }

    /** A register write does what the cacheless block does, unless it drops a fraction. */
    method RegWrite(off: int, val: Word, nonzero: bool)
      requires Valid() && off >= 0
      modifies `ch, `k, `intr, `depth, `sctl, `sdata, `slots, `soonest
      ensures Valid()
      ensures View() == Chip.RegWrite(old(View()), off, val, nonzero) <==> !old(Drops(off))
    {
      if off < v.Channels() * STRIDE {
        ChanWrite(off / STRIDE, off % STRIDE, val, nonzero);
      } else if IsTimer(v, off) {
        var t := (off - v.TimerOff()) / 4;
        TimerWrite(t, val);
        RewriteExact(old(slots[t]), val, cycle);
        TimersWritten(old(slots), t, val, cycle);
      } else if off == v.MultiOff() {
        MultiTrigger(val);
      } else if off == v.SniffCtrlOff() {
        sctl := val;
      } else if off == v.SniffDataOff() {
        sdata := val;
      } else if off == v.AbortOff() {
        Abort(val);
      }
    }

    // ----- pacing -----

    /** One pulse of timer t, over its cached listeners. */
    method PulseTimer(t: int)
      requires Cached() && 0 <= t < 4
      modifies `ch, `k
      ensures Cached()
      ensures ch == Pulse(old(View()), TIMER0 + t).ch
    {
      ghost var l := k.listen[t];
      assert l == Listeners(v, ch, t);
      var j := 0;
      while j < SLOTS
        invariant 0 <= j <= SLOTS && Cached() && |ch| == SLOTS && k.listen[t] == l
        invariant forall i :: 0 <= i < SLOTS ==>
          ch[i] == if i < j then Pulse(old(View()), TIMER0 + t).ch[i] else old(ch)[i]
      {
        if j in k.listen[t] && ch[j].credit < MAX_CREDIT {
          SetChan(j, ch[j].(credit := ch[j].credit + 1));
          assert k.listen[t] == Listeners(v, ch, t);
        }
        j := j + 1;
      }
    }

    method PulseTimes(t: int, n: nat)
      requires Cached() && 0 <= t < 4
      modifies `ch, `k
      ensures Cached()
      ensures ch == Pulses(old(View()), TIMER0 + t, n).ch
    {
      for i := 0 to n
        invariant Cached()
        invariant ch == Pulses(old(View()), TIMER0 + t, i).ch
      {
        ghost var d := View();
        PulseTimer(t);
        PulseByChans(d, Pulses(old(View()), TIMER0 + t, i), TIMER0 + t);
      }
    }

    /** Timer t's share of a cycle, given that the timers before it have had theirs. */
    method FireIfDue(t: int, ghost d: Dma)
      requires Cached() && cycle > 0 && 0 <= t < 4 && slots[t].Ok(cycle - 1)
      requires d.Ok() && d.v == v && d.timers[t] == slots[t].Now(cycle - 1) && ch == Tick(d, t).ch
      modifies `ch, `k, `slots
      ensures Cached() && slots == old(slots)[t := Fired(old(slots[t]), cycle)]
      ensures ch == Tick(d, t + 1).ch
    {
      hide TickAcc, TickPulses, Tick, Fire, Owed, Recomputed, Pulses;
      var s := slots[t];
      TickStep(d, t);
      if s.Active() && s.next.By(cycle) {
        DueCycle(s, cycle - 1);
        PulsesByChans(View(), Tick(d, t), TIMER0 + t, Owed(s, cycle));
        PulseTimes(t, Owed(s, cycle));
        slots := slots[t := Fire(s, cycle)];
      } else if s.Active() {
        QuietCycle(s, cycle - 1);
        NoPulses(Tick(d, t), TIMER0 + t);
      }
    }

    /** Brings every due timer up to date, emitting its pulses. */
    method FireDue()
      requires Cached() && cycle > 0 && InStep(slots, cycle - 1)
      modifies `ch, `k, `slots, `soonest
      ensures Cached() && InStep(slots, cycle) && soonest == Earliest(slots, 4)
      ensures View() == Tick(old(Before()), 4)
    {
      hide TickAcc, TickPulses, Tick, Fire, Owed, Recomputed, Fired, Slot.Now;
      ghost var d := Before();
      TickStep(d, 0);
      for t := 0 to 4
        invariant Cached() && |slots| == 4
        invariant forall j :: 0 <= j < 4 ==> slots[j] == if j < t then Fired(old(slots[j]), cycle) else old(slots[j])
        invariant ch == Tick(d, t).ch
      {
        FireIfDue(t, d);
      }
      TimerMin();
      FiredInStep(old(slots), slots, cycle);
      TickTimers(d, 4);
      TickRest(d, 4);
      assert View().timers == Tick(d, 4).timers;
    }

    /** The block one cycle earlier. */
    ghost function Before(): (d: Dma)
      reads this
      requires Cached() && cycle > 0 && InStep(slots, cycle - 1)
    {
      Dma(v, ch, Timers(slots, cycle - 1), sctl, sdata, intr)
    }

    /** The first half of a cycle: time advances and the timers that are due fire. */
    method Advance()
      requires Valid()
      modifies `cycle, `ch, `k, `slots, `soonest
      ensures Valid() && cycle == old(cycle) + 1
      ensures View() == Tick(old(View()), 4)
    {
      ghost var d := View();
      cycle := cycle + 1;
      assert Before() == d;
      if soonest.By(cycle) {
        FireDue();
      } else {
        NothingDue(slots, 4, cycle);
        AllQuiet(d, slots, cycle, 4);
        TickTimers(d, 4); TickRest(d, 4);
        FiredInStep(slots, slots, cycle);
      }
    }

    // ----- transfers -----

    ghost predicate Running()
      reads this
    {
      Valid() && 0 <= last < SLOTS
    }

    function Mach(): (m: Machine)
      reads this
      requires Cached() && 0 <= last < SLOTS
      ensures m.Ok()
    {
      Machine(View(), mem, cycle, last)
    }

    /** A write to this address would drop a timer's accrued fraction. */
    ghost predicate Spoils(addr: Word)
      reads this
      requires Cached()
    {
      InRegs(addr) && Drops((addr - DMA) % 0x1000)
    }

    method BusWrite(addr: Word, val: Word, size: int) returns (ok: bool)
      requires Running() && (size == 1 || size == 2 || size == 4)
      modifies `ch, `k, `intr, `depth, `sctl, `sdata, `slots, `soonest, `mem
      ensures Running()
      ensures ok <==> Chip.BusWrite(old(Mach()), addr, val, size).Done?
      ensures ok && !old(Spoils(addr)) ==> Mach() == Chip.BusWrite(old(Mach()), addr, val, size).value
    {
      hide Recomputed, InStep;
      if addr % size != 0 { return false; }
      if InSram(v, addr, size) {
        AlignedFits(addr, size);
        mem := mem[addr / 4 := PutField(Peek(mem, addr / 4), addr % 4, size, val)];
        return true;
      }
      if !InRegs(addr) { return false; }
      var off := (addr - DMA) % 0x1000;
      RegWrite(off, Alias((addr - DMA) / 0x1000, RegRead(View(), off), val), val != 0);
      return true;
    }

    /** What follows the write of a transfer. */
    method Landed(i: int, x: Word, to: Word, size: int) returns (ok: bool)
      requires Running() && 0 <= i < SLOTS && (size == 1 || size == 2 || size == 4)
      modifies `ch, `k, `intr, `depth, `sdata
      ensures Running()
      ensures ok <==> Chip.Landed(old(Mach()), i, x, to, size).Done?
      ensures ok ==> Mach() == Chip.Landed(old(Mach()), i, x, to, size).value
    {
      hide Recomputed, InStep, Decode, Flag;
      var g := DecodedAt(i);
      ghost var m0 := Mach();
      if g.sniffEn {
        var s := Sniff(View(), i, x, size);
        if s.Fault? { return false; }
        sdata := s.value.sdata;
      }
      ghost var d1 := View();
      SetChan(i, Moved(ch[i], g));
      ghost var d2 := View();
      assert d2 == d1.(ch := d1.ch[i := Moved(d1.ch[i], g)]);
      Counted(i, to);
      return true;
    }

    /** The cached decode of channel i's CTRL. */
    function DecodedAt(i: int): (f: Decoded)
      reads this
      requires Cached() && 0 <= i < SLOTS
      ensures f == Decode(v, ch[i].ctrl)
    {
      k.dec[i]
    }

    method Counted(i: int, to: Word)
      requires Running() && 0 <= i < SLOTS
      modifies `ch, `k, `intr, `depth
      ensures Running()
      ensures View() == Chip.Counted(old(View()), i, to)
    {
      hide Recomputed, InStep;
      var c := ch[i];
      if c.mode == ENDLESS { return; }
      if c.remaining > 0 { c := c.(remaining := c.remaining - 1); }
      var off := to - DMA - i * STRIDE;
      if v.Rp2040? && 0 <= off < STRIDE && FieldAt(off).TransCount? {
        SetChan(i, c.(wedged := true));
      } else {
        SetChan(i, c);
        if c.remaining == 0 && c.busy { Complete(i); }
      }
    }

    /** One datum on channel i, exactly as the cacheless machine moves it. */
    method Transfer(i: int) returns (ok: bool)
      requires Running() && 0 <= i < SLOTS
      modifies `ch, `k, `intr, `depth, `sctl, `sdata, `slots, `soonest, `mem
      ensures Running()
      ensures !old(Spoils(ch[i].writeAddr)) ==>
        (ok <==> Chip.Transfer(old(Mach()), i).Done?) && (ok ==> Mach() == Chip.Transfer(old(Mach()), i).value)
    {
      hide Recomputed, InStep, Decode, Flag, Chip.Landed, Chip.BusWrite, Chip.BusRead;
      var c := ch[i];
      var f := DecodedAt(i);
      if f.treq != PERMANENT && c.credit > 0 { SetChan(i, c.(credit := c.credit - 1)); }
      if f.sizeLog == 3 { return false; }
      var size := Size(f.sizeLog);
      var r := BusRead(Mach(), c.readAddr, size);
      if r.Fault? { return false; }
      var x := if f.bswap then Words.Bswap(r.value, size) else r.value;
      ok := BusWrite(c.writeAddr, x, size);
      if ok { ok := Landed(i, x, c.writeAddr, size); }
    }

    // ----- the fast paths -----

    /** How many words of channel i's sequence may run uninterrupted, or 1. */
    method BurstLen(i: int) returns (n: int)
      requires Running() && 0 <= i < SLOTS && k.ready == {i} && ch[i].remaining >= BURST_MIN
      ensures n >= 1 && (n > 1 ==> Eligible(View(), i) && n <= ch[i].remaining && QuietFor(View(), n - 1))
    {
      var c, f := ch[i], DecodedAt(i);
      hide Recomputed, Decode, Flag, Eligible, InStep, QuietFor, Earliest;
      if f.treq != PERMANENT || c.mode == ENDLESS || f.sniffEn || f.ringR != 0 || f.ringW != 0 || f.sizeLog == 3 {
        return 1;
      }
      SoonestAhead(slots, 4, cycle);
      n := c.remaining;
      if soonest.At? && soonest.cycle - cycle < n { n := soonest.cycle - cycle; }
      if n > 0x1_0000 { n := 0x1_0000; }
      if n > 1 {
        EligibleFrom(View(), k, i);
        QuietUntil(View(), slots, cycle, soonest, n - 1);
      }
    }

    /** The burst is capped to the room its windows leave. */
    method Capped(a: Word, stride: Word, size: int, n: int) returns (r: int)
      requires (size == 1 || size == 2 || size == 4) && (stride == 0 || stride == size || stride == M32 - size)
      requires PlainAt(v, a, size) && n >= 1
      ensures 1 <= r <= n && Room(v, a, stride, size, r)
    {
      r := n;
      if stride == size {
        var room := (SRAM + v.SramSize() - a) / size;
        if room < r { r := room; }
      } else if stride == M32 - size {
        var room := (a - SRAM) / size + 1;
        if room < r { r := room; }
      }
    }

    /** n words moved in one go: memory, addresses, count and clock end where that many single
        cycles would leave them. Falls back to one transfer off plain memory. */
    method Burst(i: int, n: int) returns (ok: bool)
      requires Running() && 0 <= i < SLOTS && last == i && n >= 1
      requires Eligible(View(), i) && n <= ch[i].remaining && QuietFor(View(), n - 1)
      modifies `ch, `k, `intr, `depth, `sctl, `sdata, `slots, `soonest, `mem, `cycle
      ensures Running() && cycle >= old(cycle)
      ensures !old(Spoils(ch[i].writeAddr)) ==>
        (ok <==> Chip.Transfer(old(Mach()), i).Done?) &&
        (ok ==> Steps(Chip.Transfer(old(Mach()), i).value, cycle - old(cycle)) == Done(Mach()))
    {
      hide Recomputed, Decode, Flag, InStep, Eligible, QuietFor, Chip.Transfer, Chip.Step, Chip.Complete, Room, PlainAt;
      var c, f := ch[i], DecodedAt(i);
      var size := Size(f.sizeLog);
      EligibleSize(View(), i);
      if !PlainAt(v, c.readAddr, size) || !PlainAt(v, c.writeAddr, size) {
        ok := Transfer(i);
        return;
      }
      StrideCases(v, c.ctrl);
      var r0 := Capped(c.readAddr, f.strideR, size, n);
      var r := Capped(c.writeAddr, f.strideW, size, r0);
      if r < 2 {
        ok := Transfer(i);
        return;
      }
      RoomLess(v, c.readAddr, f.strideR, size, r0, r);
      EndsPlain(Mach(), i);
      RoomClear(Mach(), i, r);
      QuietLess(View(), r - 1, n - r);
      BurstWords(i, r);
      ok := true;
    }

    /** The word loop, and what it leaves in memory and in the channel. */
    method WordLoop(i: int, n: nat) returns (c: Chan)
      requires Running() && 0 <= i < SLOTS && 1 <= n <= ch[i].remaining && Clear(Mach(), i, n)
      modifies `mem
      ensures c.ctrl == ch[i].ctrl
      ensures ManyWords(old(Mach()), i, n) ==
              old(Mach()).(mem := mem, dma := old(View()).(ch := ch[i := c]))
    {
      hide Recomputed, Decode, Flag, InStep;
      ghost var m := Mach();
      c := ch[i];
      var f := DecodedAt(i);
      var size := Size(f.sizeLog);
      ghost var cur := m;
      for j := 0 to n
        invariant c.ctrl == ch[i].ctrl && c.remaining == ch[i].remaining - j
        invariant cur == m.(mem := mem, dma := m.dma.(ch := m.dma.ch[i := c]))
        invariant cur.Ok() && Clear(cur, i, n - j) && ManyWords(cur, i, n - j) == ManyWords(m, i, n)
      {
        cur := OneWord(cur, i);
        mem := Moves(mem, c.readAddr, c.writeAddr, size, f.bswap);
        c := c.(readAddr := Add(c.readAddr, f.strideR), writeAddr := Add(c.writeAddr, f.strideW),
                remaining := c.remaining - 1);
      }
    }

    /** A whole burst on plain memory. */
    method BurstWords(i: int, n: nat)
      requires Running() && 0 <= i < SLOTS && last == i && 1 <= n <= ch[i].remaining
      requires Eligible(View(), i) && Clear(Mach(), i, n) && QuietFor(View(), n - 1)
      modifies `ch, `k, `intr, `depth, `mem, `cycle
      ensures Running() && cycle == old(cycle) + n - 1
      ensures Chip.Transfer(old(Mach()), i).Done?
      ensures Steps(Chip.Transfer(old(Mach()), i).value, n - 1) == Done(Mach())
    {
      hide Recomputed, Decode, Flag, Eligible, QuietFor, Chip.Transfer, Steps, Chip.Complete, Clear, ManyWords, InStep;
      BurstIsSteps(Mach(), i, n);
      QuietKeeps(View(), slots, cycle, n - 1);
      OkStarted(slots, cycle + n - 1);
      var c := WordLoop(i, n);
      SetChan(i, c);
      cycle := cycle + n - 1;
      if ch[i].remaining == 0 && ch[i].busy { Complete(i); }
    }

    // ----- cycles and runs -----

    /** One or more cycles: as many as the burst taken, if one is. Except when the datum lands in
        a live timer's register, the machine ends where that many cacheless cycles would. */
    method Step() returns (issued: bool, ok: bool)
      requires Running()
      modifies this
      ensures Running() && cycle > old(cycle)
      ensures !issued ==> ok && cycle == old(cycle) + 1 && View().Ready() == {}
      ensures !HitsTimer(old(Mach())) ==>
        if ok then Steps(old(Mach()), cycle - old(cycle)) == Done(Mach()) else Chip.Step(old(Mach())) == Fault
    {
      hide Recomputed, InStep, Eligible, QuietFor, Chip.Transfer, CanRun, Tick, Chip.Step, Steps, HitsTimer;
      ghost var m := Mach();
      Advance();
      ghost var m1 := Mach();
      assert m1.dma == Tick(m.dma, 4) && m1.last == m.last && m1.mem == m.mem;
      ReadyIs(View(), k);
      issued, ok := k.ready != {}, true;
      if !issued {
        StepIdles(m, m1);
        OneStep(m);
        return;
      }
      var pick := k.ready * k.hp;
      if pick == {} { pick := k.ready; }
      SomeReady(View());
      var i := Pick(pick, last);
      last := i;
      StepPicks(m, m1, i);
      NotSpoiled(m, i);
      ok := Grant(i);
      if ok && !HitsTimer(m) {
        StepsFront(m, cycle - old(cycle));
      }
    }

    /** The granted channel moves one word, or as many as a burst may. */
    method Grant(i: int) returns (ok: bool)
      requires Running() && 0 <= i < SLOTS && last == i
      modifies `ch, `k, `intr, `depth, `sctl, `sdata, `slots, `soonest, `mem, `cycle
      ensures Running() && cycle >= old(cycle)
      ensures !old(Spoils(ch[i].writeAddr)) ==>
        (ok <==> Chip.Transfer(old(Mach()), i).Done?) &&
        (ok ==> Steps(Chip.Transfer(old(Mach()), i).value, cycle - old(cycle)) == Done(Mach()))
    {
      hide Recomputed, InStep, Eligible, QuietFor, Chip.Transfer, CanRun, Chip.Step;
      if ch[i].remaining >= BURST_MIN && k.ready == {i} {
        var n := BurstLen(i);
        if n > 1 {
          ok := Burst(i, n);
          return;
        }
      }
      ok := Transfer(i);
    }

    /** Where a live timer is not being written, no fraction is dropped. */
    lemma NotSpoiled(m: Machine, i: int)
      requires Running() && m.Ok() && View() == Tick(m.dma, 4) && View().Ready() != {}
      requires (exists j :: 0 <= j < SLOTS && j in Favoured(View())) && i == Pick(Favoured(View()), m.last)
      ensures !HitsTimer(m) ==> !Spoils(ch[i].writeAddr)
    {
      hide Recomputed, Decode, CanRun, Tick;
      if Spoils(ch[i].writeAddr) {
        var t := ((ch[i].writeAddr - DMA) % 0x1000 - v.TimerOff()) / 4;
        SameFields(slots[t], cycle);
      }
    }

    /** Runs until nothing is left to do, a fault, or the budget is spent, jumping over the time
        no channel can use. */
    method Run(max: nat) returns (stop: Stop)
      requires Running() && NeverHits(Mach())
      modifies this
      ensures Running() && cycle >= old(cycle)
      ensures stop != Failed ==> Steps(old(Mach()), cycle - old(cycle)) == Done(Mach())
      ensures stop == Failed ==> exists n :: Faults(old(Mach()), n)
      ensures stop == Idle ==> forall i :: 0 <= i < v.Channels() ==> !Armed(ch[i])
      ensures stop == Stalled ==> View().Ready() == {} && exists i :: 0 <= i < v.Channels() && Armed(ch[i])
      ensures stop == Stalled ==> forall i :: 0 <= i < v.Channels() ==> !Waits(View(), i)
      ensures stop == Spent ==> cycle >= old(cycle) + max
    {
      hide Recomputed, InStep, Chip.Step, Chip.Transfer, CanRun, Tick, HitsTimer, Steps, NeverHits, Earliest;
      hide Armed, Waits;
      ghost var m := Mach();
      var start := cycle;
      ZeroSteps(m);
      while cycle - start < max
        invariant Running() && cycle >= start && Steps(m, cycle - start) == Done(Mach())
        decreases max + start - cycle
      {
        ghost var c1 := cycle;
        NoHit(m, c1 - start);
        var issued, ok := Step();
        if !ok {
          assert Faults(m, c1 - start);
          return Failed;
        }
        StepsAdd(m, c1 - start, cycle - c1);
        if issued { continue; }
        var busy, waits := Waiting();
        if !busy { return Idle; }
        if !waits { return Stalled; }
        ghost var c2 := cycle;
        Jump(start + max);
        StepsAdd(m, c2 - start, cycle - c2);
      }
      return Spent;
    }

    /** With nothing ready, time jumps to the cycle before the next pulse. */
    method Jump(limit: nat)
      requires Running() && View().Ready() == {} && cycle <= limit
      modifies `cycle
      ensures Running() && old(cycle) <= cycle <= limit
      ensures Steps(old(Mach()), cycle - old(cycle)) == Done(Mach())
    {
      hide Recomputed, InStep, CanRun, QuietFor, Chip.Step;
      if soonest.At? && soonest.cycle > cycle + 1 {
        var next := soonest.cycle - 1;
        if next > limit { next := limit; }
        ghost var m, n := Mach(), next - cycle;
        QuietUntil(View(), slots, cycle, soonest, n);
        QuietKeeps(View(), slots, cycle, n);
        IdleJump(m, n);
        OkStarted(slots, next);
        cycle := next;
      }
    }

    /** Whether any channel is armed, and whether one of them waits on a live timer. */
    method Waiting() returns (busy: bool, waits: bool)
      requires Running()
      ensures busy <==> exists i :: 0 <= i < v.Channels() && Armed(ch[i])
      ensures waits <==> exists i :: 0 <= i < v.Channels() && Waits(View(), i)
    {
      hide Recomputed, Decode;
      busy, waits := false, false;
      for i := 0 to v.Channels()
        invariant busy <==> exists j :: 0 <= j < i && Armed(ch[j])
        invariant waits <==> exists j :: 0 <= j < i && Waits(View(), j)
      {
        if ch[i].busy && Flag(ch[i].ctrl, 1) {
          busy := true;
          var t := DecodedAt(i).treq - TIMER0;
          if 0 <= t < 4 && slots[t].Active() { waits := true; }
        }
        WaitsAt(i);
      }
    }

    lemma WaitsAt(i: int)
      requires Running() && 0 <= i < SLOTS
      ensures var t := Decode(v, ch[i].ctrl).treq - TIMER0;
              Waits(View(), i) <==> ch[i].busy && Flag(ch[i].ctrl, 1) && 0 <= t < 4 && slots[t].Active()
    {
      hide Recomputed, Decode;
      var t := Decode(v, ch[i].ctrl).treq - TIMER0;
      if 0 <= t < 4 { SameFields(slots[t], cycle); }
    }
  }

  predicate Armed(c: Chan) {
    c.busy && Flag(c.ctrl, 1)
  }

  /** An armed channel paced by a live timer. */
  predicate Waits(d: Dma, i: int)
    requires d.Ok() && 0 <= i < SLOTS
  {
    var t := Decode(d.v, d.ch[i].ctrl).treq - TIMER0;
    Armed(d.ch[i]) && 0 <= t < 4 && d.timers[t].Active()
  }

  /** The cacheless machine runs n cycles and faults on the next. */
  ghost predicate Faults(m: Machine, n: nat)
    requires m.Ok()
  {
    Steps(m, n).Done? && Chip.Step(Steps(m, n).value) == Fault
  }

  // ----- a stalled machine -----

  /** Only credits of channels that are not armed have changed, and no timer's register. */
  ghost predicate Stays(d: Dma, e: Dma)
    requires d.Ok() && e.Ok()
  {
    && e.v == d.v && (forall t :: 0 <= t < 4 ==> e.timers[t].reg == d.timers[t].reg)
    && forall i :: 0 <= i < SLOTS ==>
         e.ch[i] == d.ch[i].(credit := e.ch[i].credit) && (Armed(d.ch[i]) ==> e.ch[i] == d.ch[i])
  }

  /** Nothing is ready, and no armed channel is paced by a live timer. */
  ghost predicate Dead(d: Dma)
    requires d.Ok()
  {
    d.Ready() == {} && forall i :: 0 <= i < SLOTS ==> !Waits(d, i)
  }

  lemma StaysDead(d: Dma, e: Dma)
    requires d.Ok() && e.Ok() && Dead(d) && Stays(d, e)
    ensures Dead(e)
  {
    hide Decode;
    forall i | 0 <= i < SLOTS ensures !CanRun(e.v, e.ch[i]) && !Waits(e, i) {
      assert !Waits(d, i) && i !in d.Ready();
      if Armed(d.ch[i]) {
        assert e.ch[i] == d.ch[i];
        var t := Decode(d.v, d.ch[i].ctrl).treq - TIMER0;
        if 0 <= t < 4 { assert e.timers[t].reg == d.timers[t].reg; }
      }
    }
  }

  lemma {:induction false} PulsesStay(d: Dma, t: int, n: nat)
    requires d.Ok() && 0 <= t < 4 && d.timers[t].Active() && forall i :: 0 <= i < SLOTS ==> !Waits(d, i)
    ensures Stays(d, Pulses(d, TIMER0 + t, n))
    decreases n
  {
    hide Decode;
    if n > 0 {
      PulsesStay(d, t, n - 1);
      var e := Pulses(d, TIMER0 + t, n - 1);
      forall i | 0 <= i < SLOTS && Armed(d.ch[i]) ensures Pulse(e, TIMER0 + t).ch[i] == d.ch[i] {
        assert !Waits(d, i) && e.ch[i] == d.ch[i];
      }
    }
  }

  lemma {:induction false} TickStays(d: Dma, n: nat)
    requires d.Ok() && n <= 4 && Dead(d)
    ensures Stays(d, Tick(d, n))
    decreases n
  {
    hide Decode, Pulses;
    if n > 0 {
      TickStays(d, n - 1);
      var e := Tick(d, n - 1);
      StaysDead(d, e);
      var x := e.timers[n - 1];
      if x.Active() {
        var e' := e.(timers := e.timers[n - 1 := TickAcc(x)]);
        assert Stays(e, e');
        StaysDead(e, e');
        PulsesStay(e', n - 1, TickPulses(x));
        StaysOn(d, e, e', Tick(d, n));
      }
    }
  }

  lemma StaysOn(d: Dma, e: Dma, f: Dma, g: Dma)
    requires d.Ok() && e.Ok() && f.Ok() && g.Ok() && Stays(d, e) && Stays(e, f) && Stays(f, g)
    ensures Stays(d, g)
  {
  }

  /** A stalled machine stays as it is for ever: no cycle moves a datum. */
  lemma {:induction false} StallForever(m: Machine, n: nat)
    requires m.Ok() && Dead(m.dma)
    ensures Steps(m, n).Done? && Dead(Steps(m, n).value.dma) && Stays(m.dma, Steps(m, n).value.dma)
    ensures Steps(m, n).value.mem == m.mem && Steps(m, n).value.last == m.last
    decreases n
  {
    hide Tick, Decode, Chip.Transfer;
    if n > 0 {
      StallForever(m, n - 1);
      var q := Steps(m, n - 1).value;
      TickStays(q.dma, 4);
      StaysDead(q.dma, Tick(q.dma, 4));
      StepIdles(q, q.(dma := Tick(q.dma, 4), cycle := q.cycle + 1));
      StaysOn(m.dma, q.dma, q.dma, Tick(q.dma, 4));
    } else {
      assert Stays(m.dma, m.dma);
    }
  }

  datatype Stop = Idle | Stalled | Spent | Failed

  /** The coming transfer writes the register of a live timer. */
  ghost predicate HitsTimer(m: Machine)
    requires m.Ok()
  {
    var d := Tick(m.dma, 4);
    d.Ready() != {} && (SomeReady(d);
      var to := d.ch[Pick(Favoured(d), m.last)].writeAddr;
      InRegs(to) && IsTimer(d.v, (to - DMA) % 0x1000) && d.timers[((to - DMA) % 0x1000 - d.v.TimerOff()) / 4].Active())
  }

  ghost predicate NeverHits(m: Machine)
    requires m.Ok()
  {
    forall n: nat :: Steps(m, n).Done? ==> !HitsTimer(Steps(m, n).value)
  }

  lemma NoHit(m: Machine, n: nat)
    requires m.Ok() && NeverHits(m) && Steps(m, n).Done?
    ensures !HitsTimer(Steps(m, n).value)
  {
    hide HitsTimer, Chip.Step;
  }

  lemma ZeroSteps(m: Machine)
    requires m.Ok()
    ensures Steps(m, 0) == Done(m)
  {
  }

  /** A cycle on which some channel is ready is a transfer on the channel picked. */
  lemma StepIdles(m: Machine, m1: Machine)
    requires m.Ok() && m1 == m.(dma := Tick(m.dma, 4), cycle := m.cycle + 1) && m1.dma.Ready() == {}
    ensures Chip.Step(m) == Done(m1)
  {
    hide Chip.Transfer, Tick;
  }

  lemma StepPicks(m: Machine, m1: Machine, i: int)
    requires m.Ok() && m1 == m.(dma := Tick(m.dma, 4), cycle := m.cycle + 1) && m1.dma.Ready() != {}
    requires (exists j :: 0 <= j < SLOTS && j in Favoured(m1.dma)) && i == Pick(Favoured(m1.dma), m.last)
    ensures Chip.Step(m) == Chip.Transfer(m1.(last := i), i)
  {
    hide Chip.Transfer, Tick;
  }

  const BURST_MIN := 16

  lemma RoomLess(v: Variant, a: Word, stride: Word, size: int, k: nat, r: nat)
    requires r <= k && size > 0 && Room(v, a, stride, size, k)
    ensures Room(v, a, stride, size, r)
  {
    Below(r, k, size); Below(r - 1, k - 1, size);
  }

  lemma EndsPlain(m: Machine, i: int)
    requires m.Ok() && 0 <= i < SLOTS
    requires var c, s := m.dma.ch[i], Size(Decode(m.dma.v, m.dma.ch[i].ctrl).sizeLog);
             PlainAt(m.dma.v, c.readAddr, s) && PlainAt(m.dma.v, c.writeAddr, s)
    ensures PlainEnds(m, i)
  {
  }

  lemma ReadyIs(d: Dma, k: Cache)
    requires d.Ok() && k == Recomputed(d.v, d.ch)
    ensures k.ready == d.Ready() && k.hp == d.High()
  {
  }

  lemma EligibleFrom(d: Dma, k: Cache, i: int)
    requires d.Ok() && 0 <= i < SLOTS && k == Recomputed(d.v, d.ch) && k.ready == {i} && d.ch[i].remaining > 0
    requires var f := Decode(d.v, d.ch[i].ctrl);
             f.treq == PERMANENT && d.ch[i].mode != ENDLESS && !f.sniffEn && f.ringR == 0 && f.ringW == 0
                 && f.sizeLog != 3
    ensures Eligible(d, i)
  {
    ReadyIs(d, k);
    hide Decode;
  }

  lemma EligibleSize(d: Dma, i: int)
    requires d.Ok() && 0 <= i < SLOTS && Eligible(d, i)
    ensures Decode(d.v, d.ch[i].ctrl).sizeLog != 3
  {
  }

  // ----- quiet time and the schedule -----

  /** Before the earliest scheduled pulse, no timer reaches its divisor. */
  lemma QuietUntil(d: Dma, slots: seq<Slot>, now: nat, soonest: Due, n: nat)
    requires d.Ok() && InStep(slots, now) && d.timers == Timers(slots, now) && soonest == Earliest(slots, 4)
    requires soonest.At? ==> now + n < soonest.cycle
    ensures QuietFor(d, n)
  {
    NothingDue(slots, 4, now + n);
    forall t | 0 <= t < 4 && d.timers[t].Active() && n > 0
      ensures d.timers[t].acc + n * d.timers[t].X() < d.timers[t].Y()
    {
      NotYet(slots[t], now, n);
    }
  }

  lemma {:induction false} SoonestAhead(slots: seq<Slot>, n: nat, now: nat)
    requires InStep(slots, now) && n <= 4
    ensures Earliest(slots, n).At? ==> Earliest(slots, n).cycle > now
  {
    hide FirstPulse;
    if n > 0 { SoonestAhead(slots, n - 1, now); }
  }

  lemma NotYet(s: Slot, now: nat, n: nat)
    requires s.Ok(now) && s.Active() && n > 0
    ensures s.Now(now).acc + n * s.X() < s.Y() <==> !s.next.By(now + n)
    ensures s.Now(now).acc == s.acc + s.X() * (now - s.last) && s.Now(now).X() == s.X() && s.Now(now).Y() == s.Y()
  {
    SameFields(s, now);
    hide Slot.X, Slot.Y, Timer.X, Timer.Y;
    var x, k := s.X(), now - s.last + n;
    assert x * (now - s.last) + n * x == k * x;
    var f := FirstPulse(s.acc, x, s.Y());
    if k >= f { Below(f, k, x); }
  }

  /** Quiet time keeps the schedule and only grows the accumulators. */
  lemma QuietKeeps(d: Dma, slots: seq<Slot>, now: nat, n: nat)
    requires d.Ok() && InStep(slots, now) && d.timers == Timers(slots, now) && QuietFor(d, n)
    ensures InStep(slots, now + n) && Timers(slots, now + n) == Grown(d.timers, n)
  {
    hide FirstPulse, Slot.X, Slot.Y, Timer.X, Timer.Y;
    forall t | 0 <= t < 4 ensures slots[t].Ok(now + n) && slots[t].Now(now + n) == Grow(d.timers[t], n) {
      SlotKeeps(slots[t], now, n);
    }
    OkStarted(slots, now + n);
    assert Timers(slots, now + n) == Grown(d.timers, n);
  }

  lemma SlotKeeps(s: Slot, now: nat, n: nat)
    requires s.Ok(now) && (n > 0 && s.Now(now).Active() ==> s.Now(now).acc + n * s.Now(now).X() < s.Now(now).Y())
    ensures s.Ok(now + n) && s.Now(now + n) == Grow(s.Now(now), n)
  {
    SameFields(s, now);
    hide Slot.X, Slot.Y, Timer.X, Timer.Y;
    if s.Active() {
      var x := s.X();
      if n > 0 { NotYet(s, now, n); }
      assert x * (now + n - s.last) == x * (now - s.last) + n * x;
    }
  }

  // ----- timers against the tick -----

  /** A slot after the cycle on which it may have been due. */
  function Fired(s: Slot, now: nat): Slot
    requires s.last <= now
  {
    if s.Active() && s.next.By(now) then Fire(s, now) else s
  }

  lemma FiredExact(s: Slot, now: nat)
    requires now > 0 && s.Ok(now - 1)
    ensures Fired(s, now).Ok(now)
    ensures Fired(s, now).Now(now) == if s.Active() then TickAcc(s.Now(now - 1)) else s.Now(now - 1)
  {
    if s.Active() {
      if s.next.By(now) { DueCycle(s, now - 1); } else { QuietCycle(s, now - 1); }
    }
  }

  lemma FiredInStep(old_: seq<Slot>, slots: seq<Slot>, now: nat)
    requires now > 0 && InStep(old_, now - 1) && |slots| == 4
    requires forall j :: 0 <= j < 4 ==> slots[j] == Fired(old_[j], now)
    ensures InStep(slots, now)
    ensures forall j :: 0 <= j < 4 ==>
      Timers(slots, now)[j] == if Timers(old_, now - 1)[j].Active() then TickAcc(Timers(old_, now - 1)[j])
          else Timers(old_, now - 1)[j]
  {
    hide Fired, TickAcc, FirstPulse;
    forall j | 0 <= j < 4
      ensures slots[j].Ok(now)
      ensures slots[j].Now(now) == if old_[j].Now(now - 1).Active() then TickAcc(old_[j].Now(now - 1))
                else old_[j].Now(now - 1)
    {
      SameFields(old_[j], now - 1);
      FiredExact(old_[j], now);
    }
    OkStarted(slots, now);
  }

  lemma OkStarted(slots: seq<Slot>, now: nat)
    requires InStep(slots, now)
    ensures Started(slots, now)
  {
  }

  lemma {:induction false} TickTimers(d: Dma, n: nat)
    requires d.Ok() && n <= 4
    ensures forall j :: 0 <= j < 4 ==>
      Tick(d, n).timers[j] == if j < n && d.timers[j].Active() then TickAcc(d.timers[j]) else d.timers[j]
  {
    hide TickAcc, TickPulses;
    if n > 0 { TickTimers(d, n - 1); }
  }

  lemma TickStep(d: Dma, n: nat)
    requires d.Ok() && n < 4
    ensures Tick(d, n + 1).ch == if d.timers[n].Active() then Pulses(Tick(d, n), TIMER0 + n, TickPulses(d.timers[n])).ch
                                 else Tick(d, n).ch
    ensures Tick(d, 0) == d
  {
    hide TickAcc, TickPulses, Pulses;
    TickTimers(d, n);
    var e := Tick(d, n);
    var t := e.timers[n];
    if t.Active() { PulsesByChans(e, e.(timers := e.timers[n := TickAcc(t)]), TIMER0 + n, TickPulses(t)); }
  }

  lemma {:induction false} TickRest(d: Dma, n: nat)
    requires d.Ok() && n <= 4
    ensures Tick(d, n).intr == d.intr
  {
    hide TickAcc, TickPulses;
    if n > 0 {
      TickRest(d, n - 1);
      var e := Tick(d, n - 1);
      var t := e.timers[n - 1];
      if t.Active() { PulsesIntr(e.(timers := e.timers[n - 1 := TickAcc(t)]), TIMER0 + n - 1, TickPulses(t)); }
    }
  }

  lemma {:induction false} PulsesIntr(d: Dma, dreq: int, n: nat)
    requires d.Ok()
    ensures Pulses(d, dreq, n).intr == d.intr
  {
    if n > 0 { PulsesIntr(d, dreq, n - 1); }
  }

  /** A pulse depends on the channels only. */
  lemma PulseByChans(d: Dma, e: Dma, dreq: int)
    requires d.Ok() && e.Ok() && d.ch == e.ch && d.v == e.v
    ensures Pulse(d, dreq).ch == Pulse(e, dreq).ch
  {
    hide Decode;
  }

  lemma {:induction false} PulsesByChans(d: Dma, e: Dma, dreq: int, n: nat)
    requires d.Ok() && e.Ok() && d.ch == e.ch && d.v == e.v
    ensures Pulses(d, dreq, n).ch == Pulses(e, dreq, n).ch
  {
    hide Pulse;
    if n > 0 {
      PulsesByChans(d, e, dreq, n - 1);
      PulseByChans(Pulses(d, dreq, n - 1), Pulses(e, dreq, n - 1), dreq);
    }
  }

  lemma {:induction false} NothingDue(slots: seq<Slot>, n: nat, now: nat)
    requires n <= |slots| && !Earliest(slots, n).By(now)
    ensures forall t :: 0 <= t < n ==> !slots[t].next.By(now)
  {
    if n > 0 { NothingDue(slots, n - 1, now); }
  }

  lemma {:induction false} AllQuiet(d: Dma, slots: seq<Slot>, now: nat, n: nat)
    requires d.Ok() && n <= 4 && now > 0 && InStep(slots, now - 1) && d.timers == Timers(slots, now - 1)
    requires forall t :: 0 <= t < 4 ==> !slots[t].next.By(now)
    ensures Tick(d, n).ch == d.ch
  {
    hide TickAcc, TickPulses;
    if n > 0 {
      AllQuiet(d, slots, now, n - 1);
      TickTimers(d, n - 1);
      if slots[n - 1].Active() { QuietCycle(slots[n - 1], now - 1); }
    }
  }

  lemma TimersWritten(slots: seq<Slot>, t: int, val: Word, now: nat)
    requires InStep(slots, now) && 0 <= t < 4
    ensures var r := Rewrite(slots[t], val, now);
            InStep(slots[t := r], now) && Timers(slots[t := r], now) == Timers(slots, now)[t := r.Now(now)]
  {
  }
}
