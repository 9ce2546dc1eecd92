/** Runs of a single armed channel: what the rest of the machine keeps meanwhile. */
module Sequencer {
  import opened Words
  import opened Core
  import opened Chip
  import opened Control
  import opened Wiring
  import opened Bursts
  import opened Worker

  /** Equal up to what pacing timers touch: credits, timers, the clock and the arbiter. */
  ghost predicate SameButPace(m: Machine, n: Machine)
    requires m.Ok() && n.Ok()
  {
    n.mem == m.mem && SamePaced(m.dma, n.dma)
  }

  ghost predicate SamePaced(d: Dma, e: Dma)
    requires d.Ok() && e.Ok()
  {
    && e.v == d.v && e.sctl == d.sctl && e.sdata == d.sdata
    && forall i :: 0 <= i < SLOTS ==> e.ch[i] == d.ch[i].(credit := e.ch[i].credit)
  }

  lemma {:induction false} PulsesPaced(d: Dma, dreq: int, n: nat)
    requires d.Ok()
    ensures SamePaced(d, Pulses(d, dreq, n))
  {
    hide Decode;
    if n > 0 { PulsesPaced(d, dreq, n - 1); }
  }

  lemma {:induction false} TickPaced(d: Dma, n: nat)
    requires d.Ok() && n <= 4
    ensures SamePaced(d, Tick(d, n))
  {
    hide Pulses, TickAcc, TickPulses;
    if n > 0 {
      TickPaced(d, n - 1);
      var e := Tick(d, n - 1);
      var t := e.timers[n - 1];
      if t.Active() { PulsesPaced(e.(timers := e.timers[n - 1 := TickAcc(t)]), TIMER0 + n - 1, TickPulses(t)); }
    }
  }

  /** No channel but i is running. */
  ghost predicate Alone(d: Dma, i: int)
    requires d.Ok()
  {
    forall j :: 0 <= j < SLOTS && j != i ==> !d.ch[j].busy
  }

  /** A channel that is running, unpaced. */
  predicate Armed(v: Variant, c: Chan) {
    c.busy && !c.wedged && Flag(c.ctrl, 1) && Decode(v, c.ctrl).treq == PERMANENT
  }

  /** While one channel runs alone, a cycle is a transfer on it. */
  lemma SoleStep(m: Machine, i: int) returns (n: Machine)
    requires m.Ok() && 0 <= i < SLOTS && Alone(m.dma, i) && Armed(m.dma.v, m.dma.ch[i])
    ensures n.Ok() && SameButPace(m, n) && n.last == i && Step(m) == Transfer(n, i)
  {
    hide Transfer, Decode, Flag, Tick;
    TickPaced(m.dma, 4);
    var d := Tick(m.dma, 4);
    assert d.Ready() == {i};
    assert Favoured(d) == {i};
    SomeReady(d);
    n := m.(dma := d, cycle := m.cycle + 1, last := i);
  }

  // ----- what a program move keeps -----

  /** The invariant every program move keeps. */
  ghost predicate Base(r: Rig, m: Machine) {
    && r.Ok() && m.Ok() && m.dma.v == r.v && SniffOk(r, m.dma.sctl) && Peek(m.mem, r.guard) == r.held
    && (r.compact ==>
        IsWindow(m.dma.ch[r.fetch].writeAddr) && forall b :: 0 <= b < 7 ==> r.v.Mode(m.dma.ch[b].reload) == 0)
  }

  /** Channel i as another channel's program move may leave it. */
  predicate ChanKept(r: Rig, i: int, c: Chan, c': Chan) {
    && c'.ctrl == c.ctrl && c'.mode == c.mode && c'.wedged == c.wedged && c'.busy == c.busy
        && c'.remaining == c.remaining
    && (i != r.fetch ==> c'.readAddr == c.readAddr && c'.writeAddr == c.writeAddr)
    && (!r.compact || i >= 7 ==> c'.reload == c.reload)
  }

  ghost predicate Kept(r: Rig, w: int, d: Dma, e: Dma)
    requires d.Ok() && e.Ok() && 0 <= w < SLOTS
  {
    && (forall i :: 0 <= i < SLOTS && i != w ==> ChanKept(r, i, d.ch[i], e.ch[i]))
    && var c, c' := d.ch[w], e.ch[w];
        c'.ctrl == c.ctrl && c'.mode == c.mode && c'.wedged == c.wedged && c'.busy == c.busy && c'.reload == c.reload
  }

  lemma KeptTrans(r: Rig, w: int, d: Dma, e: Dma, f: Dma)
    requires d.Ok() && e.Ok() && f.Ok() && 0 <= w < SLOTS && Kept(r, w, d, e) && Kept(r, w, e, f)
    ensures Kept(r, w, d, f)
  {
  }

  lemma PacedKept(r: Rig, w: int, d: Dma, e: Dma)
    requires d.Ok() && e.Ok() && 0 <= w < SLOTS && SamePaced(d, e)
    ensures Kept(r, w, d, e)
  {
  }

  lemma WroteKept(r: Rig, m: Machine, w: int, dst: Loc, x: Word, size: int)
    requires Base(r, m) && 0 <= w < SLOTS && w != r.fetch && (size == 1 || size == 2 || size == 4)
    requires Writable(r, dst, size)
    requires dst != Count(w) && (dst == SniffCtl ==> SniffOk(r, x)) && (dst == Window ==> IsWindow(x))
    requires dst.Count? ==> r.v.Mode(x) == 0
    ensures Base(r, Wrote(r, m, dst, x, size)) && Kept(r, w, m.dma, Wrote(r, m, dst, x, size).dma)
  {
    hide SniffOk, IsWindow, XorW, OrW, AndNotW, AccRead, PutField;
  }

  /** A program move keeps the machinery. */
  lemma WorkedKept(r: Rig, m: Machine, w: int, src: Loc, dst: Loc, f: Fields)
    requires Base(r, m) && Working(r, m, w, src, dst, f) && MoveOk(r, w, StateOf(r, m), src, dst, f)
    ensures var q := Worked(r, m, w, src, dst, f);
            Base(r, q) && Kept(r, w, m.dma, q.dma) && q.dma.ch[w].remaining == m.dma.ch[w].remaining - 1
  {
    ReadAligned(r, src, Size(f.sizeLog));
    var x := Datum(StateOf(r, m), src, f);
    hide SniffOk, IsWindow, Wrote, Addr, Encode, StateOf, Datum, Readable, Writable;
    WroteKept(r, m, w, dst, x, Size(f.sizeLog));
    OwnKept(r, m, w, dst, x, Size(f.sizeLog));
  }

  // ----- a whole sequence -----

  /** Every move of the sequence is one a program may ask for. */
  ghost predicate MovesOk(r: Rig, w: int, s: State, src: Loc, dst: Loc, f: Fields, k: nat)
    decreases k
  {
    k > 0 ==>
      MoveOk(r, w, s, src, dst, f) &&
      (ReadAligned(r, src, Size(f.sizeLog)); ReadAligned(r, dst, Size(f.sizeLog));
       MovesOk(r, w, Move(s, src, dst, ModeOf(f)), Next(src, f.incrR, Size(f.sizeLog)),
           Next(dst, f.incrW, Size(f.sizeLog)), f, k - 1))
  }

  lemma PacedState(r: Rig, m: Machine, n: Machine)
    requires r.Ok() && m.Ok() && n.Ok() && SameButPace(m, n)
    ensures StateOf(r, n) == StateOf(r, m) && (Base(r, m) ==> Base(r, n))
  {
    hide SniffOk, IsWindow;
    CountsByReload(r, m.dma.ch, n.dma.ch);
  }

  lemma PacedWorking(r: Rig, m: Machine, n: Machine, w: int, src: Loc, dst: Loc, f: Fields)
    requires r.Ok() && m.Ok() && n.Ok() && SameButPace(m, n) && Working(r, m, w, src, dst, f)
    ensures Working(r, n, w, src, dst, f) && n.dma.ch[w].remaining == m.dma.ch[w].remaining
  {
    hide SniffOk, Encode, Addr;
  }

  /** The pointers of a channel that has more to do name the next locations. */
  lemma StillWorking(r: Rig, m: Machine, w: int, src: Loc, dst: Loc, f: Fields)
    requires Base(r, m) && Working(r, m, w, src, dst, f) && MoveOk(r, w, StateOf(r, m), src, dst, f)
    requires m.dma.ch[w].remaining > 1
    ensures Working(r, Worked(r, m, w, src, dst, f), w, Next(src, f.incrR, Size(f.sizeLog)),
              Next(dst, f.incrW, Size(f.sizeLog)), f)
  {
    var x, size := (ReadAligned(r, src, Size(f.sizeLog)); Datum(StateOf(r, m), src, f)), Size(f.sizeLog);
    WorkedKept(r, m, w, src, dst, f);
    OwnKept(r, m, w, dst, x, size);
    assert f.incrR ==> Addr(r, src) + size < M32;
    assert f.incrW ==> Addr(r, dst) + size < M32;
    hide SniffOk, IsWindow, Wrote, Encode, StateOf, Datum, Kept, Readable, Writable;
  }

  lemma WorkingArmed(r: Rig, m: Machine, w: int, src: Loc, dst: Loc, f: Fields)
    requires Working(r, m, w, src, dst, f)
    ensures Armed(m.dma.v, m.dma.ch[w])
  {
    DecodeEncode(r.v, f);
    hide Encode, Decode;
  }

  /** One cycle of a working channel that runs alone. */
  lemma WorkStep(r: Rig, m: Machine, w: int, src: Loc, dst: Loc, f: Fields) returns (q: Machine)
    requires Base(r, m) && Working(r, m, w, src, dst, f) && Alone(m.dma, w) && MoveOk(r, w, StateOf(r, m), src, dst, f)
    ensures q.Ok() && Base(r, q) && Kept(r, w, m.dma, q.dma) && q.dma.ch[w].remaining == m.dma.ch[w].remaining - 1
    ensures Aligned(src, Size(f.sizeLog)) && Aligned(dst, Size(f.sizeLog))
    ensures StateOf(r, q) == Move(StateOf(r, m), src, dst, ModeOf(f)) && Step(m) == Done(Finished(q, w))
    ensures m.dma.ch[w].remaining > 1 ==>
              Working(r, q, w, Next(src, f.incrR, Size(f.sizeLog)), Next(dst, f.incrW, Size(f.sizeLog)), f)
  {
    hide Step, Transfer, Base, SameButPace, Alone, Armed, MoveOk, Kept, Finished, Worked;
    WorkingArmed(r, m, w, src, dst, f);
    var n := SoleStep(m, w);
    PacedState(r, m, n);
    PacedWorking(r, m, n, w, src, dst, f);
    PaceKept(r, w, m, n);
    hide Working;
    WorkTransfer(r, n, w, src, dst, f);
    WorkedState(r, n, w, src, dst, f);
    WorkedKept(r, n, w, src, dst, f);
    q := Worked(r, n, w, src, dst, f);
    KeptTrans(r, w, m.dma, n.dma, q.dma);
    if m.dma.ch[w].remaining > 1 { StillWorking(r, n, w, src, dst, f); }
  }

  lemma PaceKept(r: Rig, w: int, m: Machine, n: Machine)
    requires m.Ok() && n.Ok() && 0 <= w < SLOTS && SameButPace(m, n)
    ensures Kept(r, w, m.dma, n.dma)
  {
    PacedKept(r, w, m.dma, n.dma);
  }

  lemma KeptAlone(r: Rig, w: int, d: Dma, e: Dma)
    requires d.Ok() && e.Ok() && 0 <= w < SLOTS && Kept(r, w, d, e) && Alone(d, w)
    ensures Alone(e, w)
  {
  }

  /** A whole transfer sequence: k cycles perform the k abstract moves, and then the channel
      completes. */
  lemma {:induction false} WorkRun(r: Rig, m: Machine, w: int, src: Loc, dst: Loc, f: Fields, k: nat)
    returns (q: Machine)
    requires Base(r, m) && Working(r, m, w, src, dst, f) && Alone(m.dma, w) && m.dma.ch[w].remaining == k
    requires MovesOk(r, w, StateOf(r, m), src, dst, f, k)
    ensures q.Ok() && Base(r, q) && Kept(r, w, m.dma, q.dma) && q.dma.ch[w].remaining == 0
    ensures Aligned(src, Size(f.sizeLog)) && Aligned(dst, Size(f.sizeLog))
    ensures StateOf(r, q) == Burst(StateOf(r, m), src, dst, ModeOf(f), k)
    ensures Steps(m, k) == Done(q.(dma := Complete(q.dma, w, 0)))
    decreases k
  {
    hide Step, Base, Alone, Kept, Complete, MoveOk, Move;
    var size := Size(f.sizeLog);
    var q1 := WorkStep(r, m, w, src, dst, f);
    KeptBusy(r, w, m.dma, q1.dma);
    hide Working;
    if k == 1 {
      q := q1;
      assert Steps(m, 0) == Done(m);
      assert Burst(StateOf(r, q), Next(src, f.incrR, size), Next(dst, f.incrW, size), ModeOf(f), 0) == StateOf(r, q);
    } else {
      KeptAlone(r, w, m.dma, q1.dma);
      q := WorkRun(r, q1, w, Next(src, f.incrR, size), Next(dst, f.incrW, size), f, k - 1);
      KeptTrans(r, w, m.dma, q1.dma, q.dma);
      StepsFront(m, k);
    }
  }

  lemma KeptBusy(r: Rig, w: int, d: Dma, e: Dma)
    requires d.Ok() && e.Ok() && 0 <= w < SLOTS && Kept(r, w, d, e)
    ensures e.ch[w].busy == d.ch[w].busy
  {
  }

  // ----- triggers and machinery channels -----

  lemma Arms(d: Dma, i: int, depth: nat)
    requires d.Ok() && 0 <= i < SLOTS && depth <= MAX_DEPTH
    requires var c := d.ch[i]; Flag(c.ctrl, 1) && !c.busy && d.v.Mode(c.reload) == 0 && d.v.Count(c.reload) > 0
    ensures var c := d.ch[i];
            Trigger(d, i, depth) == d.(ch :=
                d.ch[i := c.(mode := 0, credit := 0, busy := true, remaining := d.v.Count(c.reload))])
  {
  }

  /** A sequence that completes in normal mode and chains to itself just stops. */
  lemma Stops(d: Dma, i: int, depth: nat, f: Fields)
    requires d.Ok() && 0 <= i < SLOTS && depth <= MAX_DEPTH && f.Ok() && f.chain == i && d.ch[i].ctrl == Encode(d.v, f)
    requires d.ch[i].mode == 0
    ensures Complete(d, i, depth) == d.(ch := d.ch[i := d.ch[i].(busy := false)])
  {
    DecodeEncode(d.v, f);
    hide Encode, Decode;
  }

  /** One that chains to a channel that can start arms it. */
  lemma Chains(d: Dma, i: int, depth: nat, f: Fields)
    requires d.Ok() && 0 <= i < SLOTS && depth <= MAX_DEPTH && f.Ok() && f.chain != i && f.chain < d.v.Channels()
    requires d.ch[i].ctrl == Encode(d.v, f) && d.ch[i].mode == 0
    requires var c := d.ch[f.chain]; Flag(c.ctrl, 1) && !c.busy && d.v.Mode(c.reload) == 0 && d.v.Count(c.reload) > 0
    ensures var c := d.ch[f.chain];
            Complete(d, i, depth) ==
            d.(ch := d.ch[i := d.ch[i].(busy := false)][f.chain :=
                c.(mode := 0, credit := 0, busy := true, remaining := d.v.Count(c.reload))])
  {
    DecodeEncode(d.v, f);
    hide Encode, Decode, Flag;
    var d0 := d.(ch := d.ch[i := d.ch[i].(busy := false)]);
    Arms(d0, f.chain, depth);
    hide Trigger;
  }

  /** What follows the write of a machinery channel's datum. */
  lemma LandedPlain(d: Dma, m: Machine, i: int, x: Word, to: Word, f: Fields)
    requires m.Ok() && d == m.dma && 0 <= i < SLOTS && f.Ok() && f.sizeLog == 2 && !f.sniff
    requires d.ch[i].ctrl == Encode(d.v, f)
    requires d.ch[i].mode == 0 && d.ch[i].remaining > 0 && d.ch[i].busy
    requires var off := to - DMA - i * STRIDE; !(0 <= off < STRIDE && FieldAt(off).TransCount?)
    ensures var c := d.ch[i];
            var c' := c.(readAddr := if f.incrR then Add(c.readAddr, 4) else c.readAddr,
                         writeAddr := if f.incrW then Advance(c.writeAddr, 4, if f.ring == 0 then 0 else Pow2(f.ring))
                             else c.writeAddr,
                         remaining := c.remaining - 1);
            Landed(m, i, x, to, 4) == Done(Finished(m.(dma := d.(ch := d.ch[i := c'])), i))
  {
    DecodeEncode(d.v, f);
    hide Encode, Decode, Complete, Pow2;
    var c := d.ch[i];
    var g := Decode(d.v, c.ctrl);
    var c1 := Moved(c, g);
    assert d.ch[i := c1][i := c1.(remaining := c.remaining - 1)] == d.ch[i := c1.(remaining := c.remaining - 1)];
  }

  /** The path of a machinery channel's word. */
  lemma PlainPath(m: Machine, i: int, f: Fields, x: Word, m1: Machine)
    requires m.Ok() && 0 <= i < SLOTS && f.Ok() && f.sizeLog == 2 && !f.bswap && m.dma.ch[i].ctrl == Encode(m.dma.v, f)
    requires BusRead(m, m.dma.ch[i].readAddr, 4) == Done(x) && BusWrite(m, m.dma.ch[i].writeAddr, x, 4) == Done(m1)
    ensures m1.Ok() && Transfer(m, i) == Landed(m1, i, x, m.dma.ch[i].writeAddr, 4)
  {
    DecodeEncode(m.dma.v, f);
    hide Encode, Decode, BusRead, BusWrite, Landed;
    assert m.(dma := m.dma) == m;
  }

  lemma NoSteps(m: Machine)
    requires m.Ok()
    ensures Steps(m, 0) == Done(m)
  {
  }

  /** The word a fetch transfer reads. */
  lemma FetchRead(m: Machine, a: int)
    requires m.Ok() && InSram(m.dma.v, a, 4) && a % 4 == 0
    ensures BusRead(m, a, 4) == Done(Peek(m.mem, a / 4))
  {
    AlignedFits(a, 4);
  }
}
