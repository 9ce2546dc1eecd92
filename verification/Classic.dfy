/** The three-channel fetch/exec/fix machine performs one 16-byte block from fetch to fetch. */
module Classic {
  import opened Words
  import opened Core
  import opened Chip
  import opened Control
  import opened Wiring
  import opened Bursts
  import opened Worker
  import opened Sequencer

  /** The channels the set-up names, and the word that holds the address of exec's registers. */
  datatype Setup = Setup(v: Variant, fetch: int, exec: int, fix: int, scratch: int) {
    predicate Ok() {
      && 0 <= fetch < v.Channels() && 0 <= exec < v.Channels() && 0 <= fix < v.Channels()
      && fetch != exec && exec != fix && fetch != fix && InSram(v, scratch, 4) && scratch % 4 == 0
    }

    function AsRig(): (r: Rig)
      requires Ok()
      ensures r.Ok()
    {
      Rig(v, fetch, exec, scratch / 4, Reg(exec, 0), false)
    }

    function FetchFields(): Fields { Fields(2, true, true, 0, false, false, fetch) }
    function FixFields(): Fields { Fields(2, false, false, 0, false, false, fix) }
  }

  predicate FetchConfigured(S: Setup, f: Chan)
    requires S.Ok()
  {
    f.ctrl == Encode(S.v, S.FetchFields()) && f.reload == 4 && !f.wedged
  }

  predicate FixConfigured(S: Setup, x: Chan)
    requires S.Ok()
  {
    x.ctrl == Encode(S.v, S.FixFields()) && x.reload == 1 && !x.wedged && x.readAddr == S.scratch
        && x.writeAddr == Reg(S.fetch, 0x2C)
  }

  /** The machinery is configured, and only its three channels can be running. */
  ghost predicate Rest(S: Setup, m: Machine) {
    && S.Ok() && m.Ok() && m.dma.v == S.v && Base(S.AsRig(), m)
    && FetchConfigured(S, m.dma.ch[S.fetch]) && FixConfigured(S, m.dma.ch[S.fix])
    && !m.dma.ch[S.exec].wedged
    && forall j :: 0 <= j < SLOTS && j != S.fetch && j != S.exec && j != S.fix ==> !m.dma.ch[j].busy
  }

  /** Fetch has j words of the block at pc behind it. */
  ghost predicate Fetching(S: Setup, m: Machine, j: int, pc: int) {
    && Rest(S, m) && 0 <= j < 4
    && !m.dma.ch[S.exec].busy && !m.dma.ch[S.fix].busy
    && var f := m.dma.ch[S.fetch];
       f.busy && f.mode == 0 && f.remaining == 4 - j && f.readAddr == pc + 4 * j && f.writeAddr == Reg(S.exec, 4 * j)
  }

  // ----- fetch -----

  /** Writing one of exec's alias-0 registers. */
  lemma ExecReg(S: Setup, m: Machine, j: int, x: Word)
    requires S.Ok() && m.Ok() && m.dma.v == S.v && 0 <= j < 4
    ensures 0 <= Reg(S.exec, 4 * j) < M32
    ensures BusWrite(m, Reg(S.exec, 4 * j), x, 4) == Done(m.(dma := ChanWrite(m.dma, S.exec, 4 * j, x, x != 0)))
  {
    hide RegRead, RegWrite, ChanWrite, BusWrite, BusRead;
    ChanReg(m.dma, S.exec, 4 * j, x, x != 0);
    RegBus(m, 0, S.exec * STRIDE + 4 * j, x, 4);
  }

  lemma FetchArmed(S: Setup, m: Machine, j: int, pc: int)
    requires Fetching(S, m, j, pc)
    ensures Armed(m.dma.v, m.dma.ch[S.fetch]) && Alone(m.dma, S.fetch)
  {
    DecodeEncode(S.v, S.FetchFields());
    hide Encode, Decode, Base;
  }

  lemma PacedRest(S: Setup, m: Machine, n: Machine)
    requires m.Ok() && n.Ok() && SameButPace(m, n) && Rest(S, m)
    ensures Rest(S, n)
  {
    PacedState(S.AsRig(), m, n);
    hide Base, Encode;
  }

  lemma PacedFetching(S: Setup, m: Machine, n: Machine, j: int, pc: int)
    requires m.Ok() && n.Ok() && SameButPace(m, n) && Fetching(S, m, j, pc)
    ensures Fetching(S, n, j, pc)
  {
    PacedRest(S, m, n);
    hide Rest;
  }

  /** The machine after fetch has moved word j, given the registers its write leaves. */
  function Fetched(S: Setup, m: Machine, d: Dma, j: int, pc: int): (q: Machine)
    requires m.Ok() && d.Ok() && 0 <= j < 4 && 0 <= S.exec < SLOTS && 0 <= S.fetch < SLOTS && 0 <= pc < M32 - 16
    ensures q.Ok()
  {
    m.(dma := d.(ch := d.ch[S.fetch :=
        d.ch[S.fetch].(readAddr := pc + 4 * (j + 1), writeAddr := Reg(S.exec, 4 * (j + 1)),
                                                     remaining := 3 - j)]))
  }

  /** The register write that delivers word j. */
  function Delivered(S: Setup, m: Machine, j: int, pc: int): (d: Dma)
    requires m.Ok() && 0 <= S.exec < SLOTS
    ensures d.Ok() && d.v == m.dma.v
  {
    var x := Peek(m.mem, pc / 4 + j);
    ChanWrite(m.dma, S.exec, 4 * j, x, x != 0)
  }

  lemma Pointers(S: Setup, j: int, pc: int)
    requires S.Ok() && 0 <= j < 4 && InSram(S.v, pc, 16) && pc % 4 == 0
    ensures InSram(S.v, pc + 4 * j, 4) && (pc + 4 * j) % 4 == 0 && (pc + 4 * j) / 4 == pc / 4 + j
    ensures 0 <= pc + 4 * j < M32
    ensures 0 <= Reg(S.exec, 4 * j) < M32 && Add(pc + 4 * j, 4) == pc + 4 * (j + 1)
    ensures Advance(Reg(S.exec, 4 * j), 4, 0) == Reg(S.exec, 4 * (j + 1))
    ensures var off := Reg(S.exec, 4 * j) - DMA - S.fetch * STRIDE; !(0 <= off < STRIDE)
  {
  }

  lemma FetchFront(S: Setup, m: Machine, j: int, pc: int)
    requires Fetching(S, m, j, pc) && InSram(S.v, pc, 16) && pc % 4 == 0
    ensures 0 <= Reg(S.exec, 4 * j) < M32
    ensures Transfer(m, S.fetch) ==
            Landed(m.(dma := Delivered(S, m, j, pc)), S.fetch, Peek(m.mem, pc / 4 + j), Reg(S.exec, 4 * j), 4)
  {
    hide Encode, Decode, Base, BusRead, BusWrite, Landed, Transfer, ChanWrite, Add, Advance, Reg, FieldAt;
    Pointers(S, j, pc);
    FetchRead(m, pc + 4 * j);
    ExecReg(S, m, j, Peek(m.mem, pc / 4 + j));
    PlainPath(m, S.fetch, S.FetchFields(), Peek(m.mem, pc / 4 + j), m.(dma := Delivered(S, m, j, pc)));
  }

  lemma FetchBack(S: Setup, m: Machine, d: Dma, j: int, pc: int, x: Word)
    requires Fetching(S, m, j, pc) && InSram(S.v, pc, 16) && pc % 4 == 0 && d.Ok() && d.v == S.v
    requires d.ch[S.fetch] == m.dma.ch[S.fetch]
    ensures 0 <= Reg(S.exec, 4 * j) < M32
    ensures Landed(m.(dma := d), S.fetch, x, Reg(S.exec, 4 * j), 4) == Done(Finished(Fetched(S, m, d, j, pc), S.fetch))
  {
    hide Encode, Decode, Base, Landed, Complete, Finished, Add, Advance, Reg, FieldAt;
    Pointers(S, j, pc);
    LandedPlain(d, m.(dma := d), S.fetch, x, Reg(S.exec, 4 * j), S.FetchFields());
  }

  /** The transfer of word j, when its delivery leaves fetch alone. */
  lemma FetchPath(S: Setup, m: Machine, j: int, pc: int)
    requires Fetching(S, m, j, pc) && InSram(S.v, pc, 16) && pc % 4 == 0
    requires Delivered(S, m, j, pc).ch[S.fetch] == m.dma.ch[S.fetch]
    ensures Transfer(m, S.fetch) == Done(Finished(Fetched(S, m, Delivered(S, m, j, pc), j, pc), S.fetch))
  {
    hide Encode, Base, Landed, Transfer, ChanWrite, Finished, Fetched, Reg;
    FetchFront(S, m, j, pc);
    FetchBack(S, m, Delivered(S, m, j, pc), j, pc, Peek(m.mem, pc / 4 + j));
  }

  /** Words 0 to 2 fill exec's registers. */
  lemma Delivers(S: Setup, m: Machine, j: int, pc: int)
    requires S.Ok() && m.Ok() && m.dma.v == S.v && 0 <= j < 3
    ensures Delivered(S, m, j, pc) ==
            m.dma.(ch := m.dma.ch[S.exec := WriteField(m.dma.ch[S.exec], S.v, FieldAt(4 * j), Peek(m.mem, pc / 4 + j))])
  {
    hide WriteField;
  }

  /** Exec as the first j words of a block leave it. */
  predicate Loaded(c: Chan, mem: map<int, Word>, pc: int, j: int) {
    && (j >= 1 ==> c.readAddr == Peek(mem, pc / 4))
    && (j >= 2 ==> c.writeAddr == Peek(mem, pc / 4 + 1))
    && (j >= 3 ==> c.reload == Peek(mem, pc / 4 + 2))
  }

  /** A cycle of fetch. */
  lemma FetchStep(S: Setup, m: Machine, j: int, pc: int) returns (q: Machine)
    requires Fetching(S, m, j, pc) && j < 3 && InSram(S.v, pc, 16) && pc % 4 == 0
    requires Loaded(m.dma.ch[S.exec], m.mem, pc, j)
    ensures Step(m) == Done(q) && Fetching(S, q, j + 1, pc) && Loaded(q.dma.ch[S.exec], q.mem, pc, j + 1)
    ensures q.mem == m.mem && q.dma.sdata == m.dma.sdata && q.dma.sctl == m.dma.sctl
  {
    hide Step, Transfer, Base, Encode, Decode, SniffOk;
    FetchArmed(S, m, j, pc);
    var n := SoleStep(m, S.fetch);
    PacedFetching(S, m, n, j, pc);
    Delivers(S, n, j, pc);
    FetchPath(S, n, j, pc);
    q := Fetched(S, n, Delivered(S, n, j, pc), j, pc);
    hide Delivered;
    FetchBase(S, n, q);
  }

  /** Loading exec's registers and moving fetch's pointers keeps the invariant. */
  lemma FetchBase(S: Setup, m: Machine, q: Machine)
    requires S.Ok() && Base(S.AsRig(), m) && q.Ok() && q.mem == m.mem && q.dma.v == m.dma.v && q.dma.sctl == m.dma.sctl
    ensures Base(S.AsRig(), q)
  {
    hide SniffOk;
  }

  // ----- the block starts -----

  /** Fetch has just delivered its last word and stopped; exec or fix carries on. */
  ghost predicate Between(S: Setup, m: Machine, w: int, pc: int)
  {
    && Rest(S, m) && (w == S.exec || w == S.fix)
    && !m.dma.ch[S.fetch].busy && m.dma.ch[S.fetch].readAddr == pc && (w != S.exec ==> !m.dma.ch[S.exec].busy)
    && (w != S.fix ==> !m.dma.ch[S.fix].busy)
    && m.dma.ch[w].busy && m.dma.ch[w].mode == 0
  }

  /** Exec's registers once its CTRL has arrived. */
  function Started(d: Dma, i: int, ctrl: Word): (r: Dma)
    requires d.Ok() && 0 <= i < SLOTS
    ensures r.Ok()
  {
    d.(ch := d.ch[i := d.ch[i].(ctrl := ctrl)])
  }

  lemma CtrlWrite(d: Dma, i: int, ctrl: Word, nonzero: bool)
    requires d.Ok() && 0 <= i < SLOTS && !Flag(ctrl, d.v.Busy())
    ensures ChanWrite(d, i, 0x0C, ctrl, nonzero) == TriggerValue(Started(d, i, ctrl), i, nonzero, d.ch[i].ctrl)
  {
    hide TriggerValue, Flag;
  }

  /** A nonzero count arms exec. */
  lemma StartsExec(S: Setup, d: Dma, f: Fields, n: Word)
    requires S.Ok() && d.Ok() && d.v == S.v && f.Ok() && d.ch[S.exec].reload == n && S.v.Mode(n) == 0 && n > 0
    requires !d.ch[S.exec].busy
    ensures var e := d.ch[S.exec];
            ChanWrite(d, S.exec, 0x0C, Encode(S.v, f), true) ==
            d.(ch := d.ch[S.exec := e.(ctrl := Encode(S.v, f), mode := 0, credit := 0, busy := true, remaining := n)])
  {
    DecodeEncode(S.v, f);
    hide Encode, Decode, ChanWrite, Trigger, Flag;
    CtrlWrite(d, S.exec, Encode(S.v, f), true);
    Arms(Started(d, S.exec, Encode(S.v, f)), S.exec, 0);
  }

  /** A zero count completes at once and arms fix. */
  lemma StartsFix(S: Setup, d: Dma, f: Fields)
    requires S.Ok() && d.Ok() && d.v == S.v && f.Ok() && f.chain == S.fix && d.ch[S.exec].reload == 0
    requires !d.ch[S.exec].busy
    requires FixConfigured(S, d.ch[S.fix]) && !d.ch[S.fix].busy
    ensures var e, x := d.ch[S.exec], d.ch[S.fix];
            ChanWrite(d, S.exec, 0x0C, Encode(S.v, f), true) ==
            d.(ch := d.ch[S.exec := e.(ctrl := Encode(S.v, f), mode := 0, credit := 0, busy := false)]
                         [S.fix := x.(mode := 0, credit := 0, busy := true, remaining := 1)])
  {
    DecodeEncode(S.v, f); DecodeEncode(S.v, S.FixFields());
    hide Encode, Decode, ChanWrite, Complete, Flag;
    var c := Encode(S.v, f);
    CtrlWrite(d, S.exec, c, true);
    var d1 := Started(d, S.exec, c);
    var d2 := d1.(ch := d1.ch[S.exec := d1.ch[S.exec].(mode := 0, credit := 0)]);
    assert Trigger(d1, S.exec, 0) == Complete(d2, S.exec, 1);
    Chains(d2, S.exec, 1, f);
    assert d2.ch[S.exec := d2.ch[S.exec].(busy := false)] ==
           d.ch[S.exec := d.ch[S.exec].(ctrl := c, mode := 0, credit := 0, busy := false)];
  }

  /** A null CTRL starts nothing. */
  lemma StartsNothing(S: Setup, d: Dma)
    requires S.Ok() && d.Ok() && d.v == S.v
    ensures var r := ChanWrite(d, S.exec, 0x0C, 0, false);
            r.ch == d.ch[S.exec := d.ch[S.exec].(ctrl := 0)] && r.sdata == d.sdata && r.sctl == d.sctl
  {
  }

  /** Fetch's last transfer also stops it. */
  lemma LastWord(S: Setup, m: Machine, pc: int)
    requires Fetching(S, m, 3, pc) && InSram(S.v, pc, 16) && pc % 4 == 0
    requires Delivered(S, m, 3, pc).ch[S.fetch] == m.dma.ch[S.fetch]
    ensures var d := Delivered(S, m, 3, pc);
            var f := d.ch[S.fetch].(readAddr := pc + 16, writeAddr := Reg(S.exec, 16), remaining := 0, busy := false);
            Transfer(m, S.fetch) == Done(m.(dma := d.(ch := d.ch[S.fetch := f])))
  {
    hide Encode, Base, Transfer, ChanWrite, Complete;
    FetchPath(S, m, 3, pc);
    var d := Fetched(S, m, Delivered(S, m, 3, pc), 3, pc).dma;
    Stops(d, S.fetch, 0, S.FetchFields());
    assert d.ch[S.fetch := d.ch[S.fetch].(busy := false)] ==
           Delivered(S, m, 3, pc).ch[S.fetch := d.ch[S.fetch].(busy := false)];
  }

  /** The block whose words sit at pc. */
  predicate BlockAt(S: Setup, mem: map<int, Word>, pc: int, src: Loc, dst: Loc, f: Fields, n: Word)
    requires S.Ok()
  {
    && f.Ok() && f.ring == 0 && f.chain == S.fix && S.v.Mode(n) == 0
    && (n > 0 ==> Peek(mem, pc / 4) == Addr(S.AsRig(), src) && Peek(mem, pc / 4 + 1) == Addr(S.AsRig(), dst))
    && Peek(mem, pc / 4 + 2) == n && Peek(mem, pc / 4 + 3) == Encode(S.v, f)
  }

  /** Only exec's registers, fix's run state and fetch's pointers differ. */
  ghost predicate Handed(S: Setup, m: Machine, q: Machine)
    requires S.Ok() && m.Ok() && q.Ok()
  {
    && q.mem == m.mem && q.dma.v == m.dma.v && q.dma.sdata == m.dma.sdata && q.dma.sctl == m.dma.sctl
    && (forall j :: 0 <= j < SLOTS && j != S.fetch && j != S.exec && j != S.fix ==>
                      q.dma.ch[j].busy == m.dma.ch[j].busy)
    && (FetchConfigured(S, m.dma.ch[S.fetch]) ==> FetchConfigured(S, q.dma.ch[S.fetch]))
    && (FixConfigured(S, m.dma.ch[S.fix]) ==> FixConfigured(S, q.dma.ch[S.fix]))
    && q.dma.ch[S.exec].wedged == m.dma.ch[S.exec].wedged
  }

  lemma HandedRest(S: Setup, m: Machine, q: Machine)
    requires Rest(S, m) && q.Ok() && Handed(S, m, q)
    ensures Rest(S, q)
  {
    hide Base, FetchConfigured, FixConfigured;
    FetchBase(S, m, q);
  }

  /** The cycle that hands the block over to exec, or past it to fix. */
  lemma HandOver(S: Setup, m: Machine, pc: int, src: Loc, dst: Loc, f: Fields, n: Word) returns (q: Machine)
    requires Fetching(S, m, 3, pc) && InSram(S.v, pc, 16) && pc % 4 == 0 && Loaded(m.dma.ch[S.exec], m.mem, pc, 3)
    requires BlockAt(S, m.mem, pc, src, dst, f, n)
    ensures Step(m) == Done(q) && Between(S, q, if n > 0 then S.exec else S.fix, pc + 16)
    ensures q.mem == m.mem && q.dma.sdata == m.dma.sdata && q.dma.sctl == m.dma.sctl
    ensures n > 0 ==> Working(S.AsRig(), q, S.exec, src, dst, f) && q.dma.ch[S.exec].remaining == n
    ensures n == 0 ==> q.dma.ch[S.fix].remaining == 1
  {
    hide Step, Transfer, Base, Encode, Decode, SniffOk, Addr, InSram;
    FetchArmed(S, m, 3, pc);
    var k := SoleStep(m, S.fetch);
    PacedFetching(S, m, k, 3, pc);
    assert Encode(S.v, f) != 0 by { DecodeEncode(S.v, f); }
    if n > 0 { StartsExec(S, k.dma, f, n); } else { StartsFix(S, k.dma, f); }
    hide ChanWrite;
    LastWord(S, k, pc);
    q := Transfer(k, S.fetch).value;
    HandedRest(S, k, q);
    if n > 0 { HandedWork(S, q, src, dst, f, n); }
  }

  lemma HandedWork(S: Setup, q: Machine, src: Loc, dst: Loc, f: Fields, n: Word)
    requires Rest(S, q) && f.Ok() && n > 0
    requires var c := q.dma.ch[S.exec];
             c.ctrl == Encode(S.v, f) && c.readAddr == Addr(S.AsRig(), src) && c.writeAddr == Addr(S.AsRig(), dst)
                 && c.mode == 0 &&
             c.remaining == n && c.busy && !c.wedged
    ensures Working(S.AsRig(), q, S.exec, src, dst, f)
  {
    hide Encode, Addr, SniffOk;
  }

  /** A null block leaves every channel idle, and memory as it was. */
  lemma Halts(S: Setup, m: Machine, pc: int) returns (q: Machine)
    requires Fetching(S, m, 3, pc) && InSram(S.v, pc, 16) && pc % 4 == 0 && Peek(m.mem, pc / 4 + 3) == 0
    ensures Step(m) == Done(q) && q.mem == m.mem && q.dma.sdata == m.dma.sdata && q.dma.sctl == m.dma.sctl
    ensures q.dma.Ready() == {} && forall i :: 0 <= i < SLOTS ==> !q.dma.ch[i].busy
  {
    hide Step, Transfer, Base, Encode, Decode, SniffOk;
    FetchArmed(S, m, 3, pc);
    var k := SoleStep(m, S.fetch);
    PacedFetching(S, m, k, 3, pc);
    StartsNothing(S, k.dma);
    hide ChanWrite;
    LastWord(S, k, pc);
    q := Transfer(k, S.fetch).value;
  }

  // ----- exec and fix -----

  lemma BetweenAlone(S: Setup, m: Machine, w: int, pc: int)
    requires Between(S, m, w, pc)
    ensures Alone(m.dma, w)
  {
    hide Base, FetchConfigured, FixConfigured;
  }

  /** Exec's sequence is over: fix is armed and the rest is as exec's moves left it. */
  lemma ExecDone(S: Setup, m: Machine, q: Machine, f: Fields, pc: int)
    requires Between(S, m, S.exec, pc) && q.Ok() && Base(S.AsRig(), q) && Kept(S.AsRig(), S.exec, m.dma, q.dma)
    requires f.Ok() && f.chain == S.fix && m.dma.ch[S.exec].ctrl == Encode(S.v, f)
    ensures var t := q.(dma := Complete(q.dma, S.exec, 0));
            Between(S, t, S.fix, q.dma.ch[S.fetch].readAddr) && t.dma.ch[S.fix].remaining == 1 &&
            StateOf(S.AsRig(), t) == StateOf(S.AsRig(), q)
  {
    hide Encode, Decode, SniffOk, Complete, CountsOf;
    var d := q.dma;
    DecodeEncode(S.v, S.FixFields());
    Chains(d, S.exec, 0, f);
    var t := q.(dma := Complete(d, S.exec, 0));
    FetchBase(S, q, t);
    assert CountsOf(S.AsRig(), t.dma.ch) == CountsOf(S.AsRig(), q.dma.ch) by { ClassicCounts(S, t.dma.ch, q.dma.ch); }
    hide Base;
  }

  lemma ClassicCounts(S: Setup, ch: seq<Chan>, ch': seq<Chan>)
    requires S.Ok() && |ch| == |ch'| == SLOTS
    ensures CountsOf(S.AsRig(), ch) == CountsOf(S.AsRig(), ch')
  {
  }

  /** Writing fetch's AL2_WRITE_ADDR_TRIG resets its write pointer and starts it. */
  lemma Retrigger(S: Setup, m: Machine, x: Word)
    requires S.Ok() && m.Ok() && m.dma.v == S.v && FetchConfigured(S, m.dma.ch[S.fetch]) && !m.dma.ch[S.fetch].busy
    requires x != 0
    ensures 0 <= Reg(S.fetch, 0x2C) < M32
    ensures var f := m.dma.ch[S.fetch].(writeAddr := x, mode := 0, credit := 0, busy := true, remaining := 4);
            BusWrite(m, Reg(S.fetch, 0x2C), x, 4) == Done(m.(dma := m.dma.(ch := m.dma.ch[S.fetch := f])))
  {
    hide RegRead, RegWrite, BusWrite, BusRead, Encode, Decode, Flag, Trigger;
    DecodeEncode(S.v, S.FetchFields());
    ChanReg(m.dma, S.fetch, 0x2C, x, true);
    RegBus(m, 0, S.fetch * STRIDE + 0x2C, x, 4);
    var d := m.dma.(ch := m.dma.ch[S.fetch := m.dma.ch[S.fetch].(writeAddr := x)]);
    assert ChanWrite(m.dma, S.fetch, 0x2C, x, true) == Trigger(d, S.fetch, 0);
    Arms(d, S.fetch, 0);
    var f := m.dma.ch[S.fetch].(writeAddr := x, mode := 0, credit := 0, busy := true, remaining := 4);
    assert S.v.Count(4) == 4 && S.v.Mode(4) == 0;
    assert d.ch[S.fetch := f] == m.dma.ch[S.fetch := f];
  }

  lemma FixTransfer(S: Setup, m: Machine, pc: int)
    requires Between(S, m, S.fix, pc) && m.dma.ch[S.fix].remaining == 1
    ensures var d, b := m.dma, Reg(S.exec, 0);
            var f := d.ch[S.fetch].(writeAddr := b, mode := 0, credit := 0, busy := true, remaining := 4);
            var x := d.ch[S.fix].(remaining := 0, busy := false);
            Transfer(m, S.fix) == Done(m.(dma := d.(ch := d.ch[S.fetch := f][S.fix := x])))
  {
    var d, b := m.dma, Reg(S.exec, 0);
    var f := d.ch[S.fetch].(writeAddr := b, mode := 0, credit := 0, busy := true, remaining := 4);
    var d1 := d.(ch := d.ch[S.fetch := f]);
    assert Peek(m.mem, S.scratch / 4) == b;
    hide Encode, Decode, Base, BusRead, BusWrite, Landed, Transfer, Complete, FetchConfigured, Pow2;
    FetchRead(m, S.scratch);
    Retrigger(S, m, b);
    PlainPath(m, S.fix, S.FixFields(), b, m.(dma := d1));
    LandedPlain(d1, m.(dma := d1), S.fix, b, Reg(S.fetch, 0x2C), S.FixFields());
    var x := d.ch[S.fix].(remaining := 0);
    var d2 := d1.(ch := d1.ch[S.fix := x]);
    Stops(d2, S.fix, 0, S.FixFields());
    assert d2.ch[S.fix := x.(busy := false)] == d1.ch[S.fix := x.(busy := false)];
  }

  /** Fix's one transfer re-establishes fetch's write pointer and starts the next block. */
  lemma FixStep(S: Setup, m: Machine, pc: int) returns (q: Machine)
    requires Between(S, m, S.fix, pc) && m.dma.ch[S.fix].remaining == 1
    ensures Step(m) == Done(q) && Fetching(S, q, 0, pc) && StateOf(S.AsRig(), q) == StateOf(S.AsRig(), m)
  {
    hide Step, Transfer, Base, Encode, Decode, SniffOk, CountsOf;
    DecodeEncode(S.v, S.FixFields());
    BetweenAlone(S, m, S.fix, pc);
    var k := SoleStep(m, S.fix);
    PacedRest(S, m, k);
    FixTransfer(S, k, pc);
    q := Transfer(k, S.fix).value;
    HandedRest(S, k, q);
    ClassicCounts(S, q.dma.ch, m.dma.ch);
  }

  // ----- fetch to fetch -----

  /** Three cycles load exec's pointers and count. */
  lemma ThreeWords(S: Setup, m: Machine, pc: int) returns (q: Machine)
    requires Fetching(S, m, 0, pc) && InSram(S.v, pc, 16) && pc % 4 == 0
    ensures Steps(m, 3) == Done(q) && Fetching(S, q, 3, pc) && Loaded(q.dma.ch[S.exec], q.mem, pc, 3)
    ensures q.mem == m.mem && q.dma.sdata == m.dma.sdata && q.dma.sctl == m.dma.sctl
  {
    hide Step, Fetching;
    assert m.Ok() by { FetchingOk(S, m, 0, pc); }
    var q1 := FetchStep(S, m, 0, pc);
    var q2 := FetchStep(S, q1, 1, pc);
    q := FetchStep(S, q2, 2, pc);
    assert Steps(m, 0) == Done(m);
    assert Steps(m, 1) == Done(q1);
    assert Steps(m, 2) == Done(q2);
  }

  lemma FetchingOk(S: Setup, m: Machine, j: int, pc: int)
    requires Fetching(S, m, j, pc)
    ensures S.Ok() && m.Ok() && m.dma.ch[S.fetch].readAddr == pc + 4 * j && 0 <= pc + 4 * j < M32
  {
  }

  /** What the block does, %pc already past it. */
  ghost function Effect(s: State, pc: int, src: Loc, dst: Loc, f: Fields, n: Word): State
    requires f.Ok() && Aligned(src, Size(f.sizeLog)) && Aligned(dst, Size(f.sizeLog)) && 0 <= pc < M32 - 16
  {
    Burst(s.(pc := pc + 16), src, dst, ModeOf(f), n)
  }

  /** Four cycles fetch the block and hand it over; the program sees only %pc move. */
  lemma FetchBlock(S: Setup, m: Machine, pc: int, src: Loc, dst: Loc, f: Fields, n: Word) returns (q: Machine)
    requires Fetching(S, m, 0, pc) && InSram(S.v, pc, 16) && pc % 4 == 0 && BlockAt(S, m.mem, pc, src, dst, f, n)
    ensures Steps(m, 4) == Done(q) && Between(S, q, if n > 0 then S.exec else S.fix, pc + 16)
    ensures n > 0 ==> Working(S.AsRig(), q, S.exec, src, dst, f) && q.dma.ch[S.exec].remaining == n
    ensures n == 0 ==> q.dma.ch[S.fix].remaining == 1
    ensures StateOf(S.AsRig(), q) == StateOf(S.AsRig(), m).(pc := pc + 16)
  {
    hide Step, Steps, BlockAt, Encode, InSram, Fetching, Between, Working, CountsOf;
    var q1 := ThreeWords(S, m, pc);
    q := HandOver(S, q1, pc, src, dst, f, n);
    FetchingOk(S, m, 0, pc); FetchingOk(S, q1, 3, pc);
    BetweenOk(S, q, if n > 0 then S.exec else S.fix, pc + 16);
    FourSteps(m, q1, q);
    ClassicCounts(S, q.dma.ch, m.dma.ch);
  }

  lemma BetweenOk(S: Setup, m: Machine, w: int, pc: int)
    requires Between(S, m, w, pc)
    ensures S.Ok() && m.Ok() && m.dma.ch[S.fetch].readAddr == pc
  {
  }

  /** The block at pc asks only for moves a program may make. */
  ghost predicate Legal(S: Setup, s: State, pc: int, src: Loc, dst: Loc, f: Fields, n: Word)
    requires S.Ok()
  {
    && InSram(S.v, pc, 16) && pc % 4 == 0 && BlockAt(S, s.mem, pc, src, dst, f, n)
    && Aligned(src, Size(f.sizeLog)) && Aligned(dst, Size(f.sizeLog))
    && MovesOk(S.AsRig(), S.exec, s.(pc := pc + 16), src, dst, f, n)
  }

  /** From fetch to fetch the machine performs exactly the block at %pc: four words fetched, the
      block's count of moves, one cycle of fix; %pc ends past the block unless the block wrote it,
      and the machinery is as it was. */
  lemma BlockRuns(S: Setup, m: Machine, pc: int, src: Loc, dst: Loc, f: Fields, n: Word) returns (q: Machine)
    requires Fetching(S, m, 0, pc) && Legal(S, StateOf(S.AsRig(), m), pc, src, dst, f, n)
    ensures Steps(m, 5 + n) == Done(q) && Fetching(S, q, 0, StateOf(S.AsRig(), q).pc)
    ensures StateOf(S.AsRig(), q) == Effect(StateOf(S.AsRig(), m), pc, src, dst, f, n)
  {
    FetchingOk(S, m, 0, pc);
    hide Legal, Fetching, StateOf, Steps, Step, Effect;
    if n == 0 { q := EmptyBlockRuns(S, m, pc, src, dst, f); } else { q := FullBlockRuns(S, m, pc, src, dst, f, n); }
    FetchingPc(S, q);
  }

  lemma EmptyBlockRuns(S: Setup, m: Machine, pc: int, src: Loc, dst: Loc, f: Fields) returns (q: Machine)
    requires Fetching(S, m, 0, pc) && Legal(S, StateOf(S.AsRig(), m), pc, src, dst, f, 0)
    ensures q.Ok() && Steps(m, 5) == Done(q) && Fetching(S, q, 0, q.dma.ch[S.fetch].readAddr)
    ensures StateOf(S.AsRig(), q) == Effect(StateOf(S.AsRig(), m), pc, src, dst, f, 0)
  {
    hide Step, Steps, BlockAt, MovesOk, Encode, InSram, Between, Working, Base;
    var q2 := FetchBlock(S, m, pc, src, dst, f, 0);
    hide StateOf;
    BetweenOk(S, q2, S.fix, pc + 16);
    q := FixStep(S, q2, pc + 16);
    NoSteps(q2);
    FiveSteps(m, q2, q2, q, 0);
  }

  lemma FullBlockRuns(S: Setup, m: Machine, pc: int, src: Loc, dst: Loc, f: Fields, n: Word) returns (q: Machine)
    requires Fetching(S, m, 0, pc) && Legal(S, StateOf(S.AsRig(), m), pc, src, dst, f, n) && n > 0
    ensures q.Ok() && Steps(m, 5 + n) == Done(q) && Fetching(S, q, 0, q.dma.ch[S.fetch].readAddr)
    ensures StateOf(S.AsRig(), q) == Effect(StateOf(S.AsRig(), m), pc, src, dst, f, n)
  {
    hide Step, Steps, MovesOk, Encode, InSram, Between, Working, Base, FetchConfigured, FixConfigured, Burst, CountsOf;
    var q2 := FetchBlock(S, m, pc, src, dst, f, n);
    q := FullTail(S, m, q2, StateOf(S.AsRig(), m).(pc := pc + 16), pc + 16, src, dst, f, n);
  }

  lemma FullTail(S: Setup, m: Machine, q2: Machine, s: State, pc: int, src: Loc, dst: Loc, f: Fields, n: Word)
    returns (q: Machine)
    requires m.Ok() && q2.Ok() && Steps(m, 4) == Done(q2) && Between(S, q2, S.exec, pc)
    requires Working(S.AsRig(), q2, S.exec, src, dst, f)
    requires q2.dma.ch[S.exec].remaining == n && f.chain == S.fix && StateOf(S.AsRig(), q2) == s
    requires MovesOk(S.AsRig(), S.exec, s, src, dst, f, n) && Aligned(src, Size(f.sizeLog))
    requires Aligned(dst, Size(f.sizeLog))
    ensures q.Ok() && Steps(m, 5 + n) == Done(q) && Fetching(S, q, 0, q.dma.ch[S.fetch].readAddr)
    ensures StateOf(S.AsRig(), q) == Burst(s, src, dst, ModeOf(f), n)
  {
    hide Step, Steps, MovesOk, Between, Working, StateOf, Fetching;
    var t;
    t, q := ExecAndFix(S, q2, pc, src, dst, f, n);
    FiveSteps(m, q2, t, q, n);
  }

  /** Exec's moves and the cycle of fix that follows them. */
  lemma ExecAndFix(S: Setup, m: Machine, pc: int, src: Loc, dst: Loc, f: Fields, n: nat)
    returns (t: Machine, q: Machine)
    requires Between(S, m, S.exec, pc) && Working(S.AsRig(), m, S.exec, src, dst, f) && f.chain == S.fix
    requires m.dma.ch[S.exec].remaining == n && MovesOk(S.AsRig(), S.exec, StateOf(S.AsRig(), m), src, dst, f, n)
    ensures t.Ok() && Steps(m, n) == Done(t) && Step(t) == Done(q) && Fetching(S, q, 0, q.dma.ch[S.fetch].readAddr)
    ensures Aligned(src, Size(f.sizeLog)) && Aligned(dst, Size(f.sizeLog))
    ensures StateOf(S.AsRig(), q) == Burst(StateOf(S.AsRig(), m), src, dst, ModeOf(f), n)
  {
    hide Step, Steps, MovesOk, Complete, Kept, StateOf, SniffOk, Encode;
    var r := S.AsRig();
    BetweenAlone(S, m, S.exec, pc);
    var e := WorkRun(r, m, S.exec, src, dst, f, n);
    hide Base;
    ExecDone(S, m, e, f, pc);
    t := e.(dma := Complete(e.dma, S.exec, 0));
    q := FixStep(S, t, e.dma.ch[S.fetch].readAddr);
  }

  lemma FetchingPc(S: Setup, q: Machine)
    requires S.Ok() && q.Ok()
    ensures StateOf(S.AsRig(), q).pc == q.dma.ch[S.fetch].readAddr
  {
  }

  lemma FourSteps(m: Machine, q1: Machine, q2: Machine)
    requires m.Ok() && q1.Ok() && Steps(m, 3) == Done(q1) && Step(q1) == Done(q2)
    ensures Steps(m, 4) == Done(q2)
  {
    hide Step;
  }

  lemma FiveSteps(m: Machine, q2: Machine, t: Machine, q: Machine, n: nat)
    requires m.Ok() && q2.Ok() && t.Ok() && Steps(m, 4) == Done(q2) && Steps(q2, n) == Done(t) && Step(t) == Done(q)
    ensures Steps(m, 5 + n) == Done(q)
  {
    hide Step;
    StepsAdd(m, 4, n);
    assert Steps(m, 4 + n) == Done(t);
  }

  /** The null block halts the machine: every channel is idle. */
  lemma HaltRuns(S: Setup, m: Machine, pc: int) returns (q: Machine)
    requires Fetching(S, m, 0, pc) && InSram(S.v, pc, 16) && pc % 4 == 0 && Peek(m.mem, pc / 4 + 3) == 0
    ensures Steps(m, 4) == Done(q) && q.mem == m.mem && q.dma.sdata == m.dma.sdata && q.dma.sctl == m.dma.sctl
    ensures q.dma.Ready() == {} && forall i :: 0 <= i < SLOTS ==> !q.dma.ch[i].busy
  {
    hide Step, Steps;
    var q1 := ThreeWords(S, m, pc);
    q := Halts(S, q1, pc);
    FetchingOk(S, m, 0, pc); FetchingOk(S, q1, 3, pc);
    FourSteps(m, q1, q);
  }

  // ----- programs -----

  datatype Instr = Instr(src: Loc, dst: Loc, f: Fields, n: Word)

  ghost predicate LegalNext(S: Setup, s: State, i: Instr) {
    S.Ok() && Legal(S, s, s.pc, i.src, i.dst, i.f, i.n)
  }

  ghost function Next1(S: Setup, s: State, i: Instr): State
    requires LegalNext(S, s, i)
  {
    Effect(s, s.pc, i.src, i.dst, i.f, i.n)
  }

  /** prog is the run of blocks a sequential machine meets from s, each where %pc then points. */
  ghost predicate LegalRun(S: Setup, s: State, prog: seq<Instr>)
    decreases |prog|
  {
    prog == [] || (LegalNext(S, s, prog[0]) && LegalRun(S, Next1(S, s, prog[0]), prog[1..]))
  }

  ghost function RunOf(S: Setup, s: State, prog: seq<Instr>): State
    requires LegalRun(S, s, prog)
    decreases |prog|
  {
    if prog == [] then s else RunOf(S, Next1(S, s, prog[0]), prog[1..])
  }

  /** The channel machine refines the sequential one: however many blocks it meets, it passes
      through a fetch with exactly the state the sequential machine reaches. */
  lemma {:induction false} ProgramRuns(S: Setup, m: Machine, prog: seq<Instr>) returns (q: Machine, k: nat)
    requires S.Ok() && m.Ok() && Fetching(S, m, 0, StateOf(S.AsRig(), m).pc) && LegalRun(S, StateOf(S.AsRig(), m), prog)
    ensures q.Ok() && Steps(m, k) == Done(q) && Fetching(S, q, 0, StateOf(S.AsRig(), q).pc)
    ensures StateOf(S.AsRig(), q) == RunOf(S, StateOf(S.AsRig(), m), prog)
    decreases |prog|
  {
    hide Fetching, Legal, Steps, Step, StateOf, Effect;
    if prog == [] {
      q, k := m, 0;
      NoSteps(m);
    } else {
      var i := prog[0];
      var m1 := BlockRuns(S, m, StateOf(S.AsRig(), m).pc, i.src, i.dst, i.f, i.n);
      FetchingOk(S, m1, 0, StateOf(S.AsRig(), m1).pc);
      var k1;
      q, k1 := ProgramRuns(S, m1, prog[1..]);
      k := 5 + i.n + k1;
      StepsAdd(m, 5 + i.n, k1);
    }
  }

  // ----- start-up -----

  function Poke(m: Machine, addr: int, val: Word): (r: Result<Machine>)
    requires m.Ok()
    ensures r.Done? ==> r.value.Ok() && r.value.dma.v == m.dma.v
  {
    if 0 <= addr < M32 then BusWrite(m, addr, val, 4) else Fault
  }

  function Pokes(m: Machine, ws: seq<(int, Word)>): (r: Result<Machine>)
    requires m.Ok()
    ensures r.Done? ==> r.value.Ok() && r.value.dma.v == m.dma.v
    decreases |ws|
  {
    if ws == [] then Done(m)
    else match Poke(m, ws[0].0, ws[0].1) case Fault => Fault case Done(m') => Pokes(m', ws[1..])
  }

  /** The set-up writes, fetch's CTRL last. */
  function SetupWrites(S: Setup, entry: Word): seq<(int, Word)>
    requires S.Ok()
  {
    [(S.scratch, Reg(S.exec, 0)),
     (Reg(S.fix, 0x14), S.scratch), (Reg(S.fix, 0x18), Reg(S.fetch, 0x2C)), (Reg(S.fix, 0x24), 1),
     (Reg(S.fix, 0x10), Encode(S.v, S.FixFields())),
     (Reg(S.fetch, 0x00), entry), (Reg(S.fetch, 0x04), Reg(S.exec, 0)), (Reg(S.fetch, 0x08), 4),
     (Reg(S.fetch, 0x0C), Encode(S.v, S.FetchFields()))]
  }

  /** The set-up rejects shared or missing channels and a misaligned entry. */
  function SetupFetchExec(S: Setup, m: Machine, entry: Word): Result<Machine>
    requires m.Ok()
  {
    if S.fetch == S.exec || S.exec == S.fix || S.fetch == S.fix || !S.Ok() || entry % 16 != 0 then Fault
    else Pokes(m, SetupWrites(S, entry))
  }

  lemma PokeChan(m: Machine, i: int, r: int, x: Word)
    requires m.Ok() && 0 <= i < m.dma.v.Channels() && 0 <= r < STRIDE && r % 4 == 0
    ensures Poke(m, Reg(i, r), x) == Done(m.(dma := ChanWrite(m.dma, i, r, x, x != 0)))
  {
    hide RegRead, RegWrite, BusWrite, BusRead, ChanWrite;
    ChanReg(m.dma, i, r, x, x != 0);
    RegBus(m, 0, i * STRIDE + r, x, 4);
  }

  /** A poke of a register that does not trigger. */
  lemma PokeReg(m: Machine, i: int, r: int, x: Word)
    requires m.Ok() && 0 <= i < m.dma.v.Channels() && 0 <= r < STRIDE && r % 4 == 0 && !IsTrigger(r)
    ensures Poke(m, Reg(i, r), x)
              == Done(m.(dma := m.dma.(ch := m.dma.ch[i := WriteField(m.dma.ch[i], m.dma.v, FieldAt(r), x)])))
  {
    hide Poke;
    PokeChan(m, i, r, x);
  }

  lemma PokeStart(m: Machine, i: int, f: Fields)
    requires m.Ok() && 0 <= i < m.dma.v.Channels() && f.Ok() && !m.dma.ch[i].busy
    requires m.dma.v.Mode(m.dma.ch[i].reload) == 0 && m.dma.v.Count(m.dma.ch[i].reload) > 0
    ensures var c := m.dma.ch[i];
            var c' := c.(ctrl := Encode(m.dma.v, f), mode := 0, credit := 0, busy := true,
                remaining := m.dma.v.Count(c.reload));
            Poke(m, Reg(i, 0x0C), Encode(m.dma.v, f)) == Done(m.(dma := m.dma.(ch := m.dma.ch[i := c'])))
  {
    DecodeEncode(m.dma.v, f);
    hide Poke, Encode, Decode, Flag, ChanWrite, Trigger;
    var x := Encode(m.dma.v, f);
    PokeChan(m, i, 0x0C, x);
    CtrlWrite(m.dma, i, x, true);
    var d := Started(m.dma, i, x);
    Arms(d, i, 0);
    var c := m.dma.ch[i].(ctrl := x, mode := 0, credit := 0, busy := true,
        remaining := m.dma.v.Count(m.dma.ch[i].reload));
    assert d.ch[i := c] == m.dma.ch[i := c];
  }

  lemma PokesFront(m: Machine, ws: seq<(int, Word)>, m1: Machine)
    requires m.Ok() && m1.Ok() && |ws| > 0 && Poke(m, ws[0].0, ws[0].1) == Done(m1)
    ensures Pokes(m, ws) == Pokes(m1, ws[1..])
  {
  }

  lemma PokeMem(m: Machine, a: int, x: Word)
    requires m.Ok() && InSram(m.dma.v, a, 4) && a % 4 == 0
    ensures Poke(m, a, x) == Done(m.(mem := m.mem[a / 4 := x]))
  {
    AlignedFits(a, 4);
  }

  lemma FourPokes(m: Machine, c0: (int, Word), c1: (int, Word), c2: (int, Word), c3: (int, Word),
                  rest: seq<(int, Word)>,
                  q1: Machine, q2: Machine, q3: Machine, q4: Machine)
    requires m.Ok() && q1.Ok() && q2.Ok() && q3.Ok() && q4.Ok()
    requires Poke(m, c0.0, c0.1) == Done(q1) && Poke(q1, c1.0, c1.1) == Done(q2) && Poke(q2, c2.0, c2.1) == Done(q3)
    requires Poke(q3, c3.0, c3.1) == Done(q4)
    ensures Pokes(m, [c0, c1, c2, c3] + rest) == Pokes(q4, rest)
  {
    hide Poke, Pokes;
    PokesFront(m, [c0, c1, c2, c3] + rest, q1);
    assert ([c0, c1, c2, c3] + rest)[1..] == [c1, c2, c3] + rest;
    PokesFront(q1, [c1, c2, c3] + rest, q2);
    assert ([c1, c2, c3] + rest)[1..] == [c2, c3] + rest;
    PokesFront(q2, [c2, c3] + rest, q3);
    assert ([c2, c3] + rest)[1..] == [c3] + rest;
    PokesFront(q3, [c3] + rest, q4);
    assert ([c3] + rest)[1..] == rest;
  }

  /** The fix channel's configuration. */
  lemma FixPokes(S: Setup, m: Machine, rest: seq<(int, Word)>) returns (q: Machine)
    requires S.Ok() && m.Ok() && m.dma.v == S.v && !m.dma.ch[S.fix].wedged
    ensures q.Ok() && q.mem == m.mem && q.dma == m.dma.(ch := m.dma.ch[S.fix := q.dma.ch[S.fix]])
    ensures FixConfigured(S, q.dma.ch[S.fix]) && q.dma.ch[S.fix].busy == m.dma.ch[S.fix].busy
    ensures Pokes(m, [(Reg(S.fix, 0x14), S.scratch), (Reg(S.fix, 0x18), Reg(S.fetch, 0x2C)), (Reg(S.fix, 0x24), 1),
                      (Reg(S.fix, 0x10), Encode(S.v, S.FixFields()))] + rest) == Pokes(q, rest)
  {
    hide Encode, Decode, Flag, Poke, Pokes, WriteField;
    var c0 := (Reg(S.fix, 0x14), S.scratch);
    var c1 := (Reg(S.fix, 0x18), Reg(S.fetch, 0x2C));
    var c2 := (Reg(S.fix, 0x24), 1);
    var c3 := (Reg(S.fix, 0x10), Encode(S.v, S.FixFields()));
    var q1 := PokeField(m, S.fix, 0x14, c0.1);
    var q2 := PokeField(q1, S.fix, 0x18, c1.1);
    var q3 := PokeField(q2, S.fix, 0x24, c2.1);
    q := PokeField(q3, S.fix, 0x10, c3.1);
    FixWritten(S, m.dma.ch[S.fix]);
    FourPokes(m, c0, c1, c2, c3, rest, q1, q2, q3, q);
  }

  /** The same, as the channel it leaves. */
  lemma PokeField(m: Machine, i: int, r: int, x: Word) returns (q: Machine)
    requires m.Ok() && 0 <= i < m.dma.v.Channels() && 0 <= r < STRIDE && r % 4 == 0 && !IsTrigger(r)
    ensures q.Ok() && q == m.(dma := m.dma.(ch := m.dma.ch[i := q.dma.ch[i]]))
    ensures q.dma.ch[i] == WriteField(m.dma.ch[i], m.dma.v, FieldAt(r), x) && Poke(m, Reg(i, r), x) == Done(q)
  {
    hide Poke;
    PokeReg(m, i, r, x);
    q := Poke(m, Reg(i, r), x).value;
  }

  lemma FixWritten(S: Setup, c: Chan)
    requires S.Ok() && !c.wedged
    ensures var c1 := WriteField(c, S.v, FieldAt(0x14), S.scratch);
            var c2 := WriteField(c1, S.v, FieldAt(0x18), Reg(S.fetch, 0x2C));
            var c3 := WriteField(c2, S.v, FieldAt(0x24), 1);
            var c4 := WriteField(c3, S.v, FieldAt(0x10), Encode(S.v, S.FixFields()));
            FixConfigured(S, c4) && c4.busy == c.busy
  {
    DecodeEncode(S.v, S.FixFields());
    hide Encode, Decode, Flag;
  }

  /** Fetch's configuration, which starts it. */
  lemma FetchPokes(S: Setup, m: Machine, entry: Word) returns (q: Machine)
    requires S.Ok() && m.Ok() && m.dma.v == S.v && !m.dma.ch[S.fetch].wedged && !m.dma.ch[S.fetch].busy
    ensures q.Ok() && q.mem == m.mem && q.dma == m.dma.(ch := m.dma.ch[S.fetch := q.dma.ch[S.fetch]])
    ensures var f := q.dma.ch[S.fetch];
            FetchConfigured(S, f) && f.busy && f.mode == 0 && f.remaining == 4 && f.readAddr == entry
                && f.writeAddr == Reg(S.exec, 0)
    ensures Pokes(m, [(Reg(S.fetch, 0x00), entry), (Reg(S.fetch, 0x04), Reg(S.exec, 0)), (Reg(S.fetch, 0x08), 4),
                      (Reg(S.fetch, 0x0C), Encode(S.v, S.FetchFields()))]) == Done(q)
  {
    hide Encode, Decode, Flag, Poke, Pokes;
    var c0 := (Reg(S.fetch, 0x00), entry);
    var c1 := (Reg(S.fetch, 0x04), Reg(S.exec, 0));
    var c2 := (Reg(S.fetch, 0x08), 4);
    var c3 := (Reg(S.fetch, 0x0C), Encode(S.v, S.FetchFields()));
    PokeReg(m, S.fetch, 0x00, entry);
    var q1 := Poke(m, c0.0, c0.1).value;
    PokeReg(q1, S.fetch, 0x04, Reg(S.exec, 0));
    var q2 := Poke(q1, c1.0, c1.1).value;
    PokeReg(q2, S.fetch, 0x08, 4);
    var q3 := Poke(q2, c2.0, c2.1).value;
    PokeStart(q3, S.fetch, S.FetchFields());
    q := Poke(q3, c3.0, c3.1).value;
    FourPokes(m, c0, c1, c2, c3, [], q1, q2, q3, q);
    assert [c0, c1, c2, c3] + [] == [c0, c1, c2, c3];
    NoPokes(q);
  }

  lemma NoPokes(m: Machine)
    requires m.Ok()
    ensures Pokes(m, []) == Done(m)
  {
  }

  /** On an idle machine whose sniffer watches exec, the set-up leaves it fetching at the entry;
      it is refused exactly for a bad configuration or a misaligned entry. */
  lemma SetupStarts(S: Setup, m: Machine, entry: Word)
    requires m.Ok() && m.dma.v == S.v && forall i :: 0 <= i < SLOTS ==> !m.dma.ch[i].busy && !m.dma.ch[i].wedged
    requires S.Ok() ==> SniffOk(S.AsRig(), m.dma.sctl)
    ensures SetupFetchExec(S, m, entry).Done? <==> S.Ok() && entry % 16 == 0
    ensures S.Ok() && entry % 16 == 0 ==> Fetching(S, SetupFetchExec(S, m, entry).value, 0, entry)
  {
    if S.Ok() && entry % 16 == 0 {
      var q := SetupEnds(S, m, entry);
    }
  }

  lemma SetupEnds(S: Setup, m: Machine, entry: Word) returns (q: Machine)
    requires m.Ok() && m.dma.v == S.v && forall i :: 0 <= i < SLOTS ==> !m.dma.ch[i].busy && !m.dma.ch[i].wedged
    requires S.Ok() && SniffOk(S.AsRig(), m.dma.sctl) && entry % 16 == 0
    ensures Pokes(m, SetupWrites(S, entry)) == Done(q) && Fetching(S, q, 0, entry)
  {
    hide Encode, Decode, Poke, Pokes, SniffOk, FixConfigured, FetchConfigured;
    var ws := SetupWrites(S, entry);
    PokeMem(m, S.scratch, Reg(S.exec, 0));
    var q1 := m.(mem := m.mem[S.scratch / 4 := Reg(S.exec, 0)]);
    PokesFront(m, ws, q1);
    var tail := [(Reg(S.fetch, 0x00), entry), (Reg(S.fetch, 0x04), Reg(S.exec, 0)), (Reg(S.fetch, 0x08), 4),
                 (Reg(S.fetch, 0x0C), Encode(S.v, S.FetchFields()))];
    assert ws[1..] == [(Reg(S.fix, 0x14), S.scratch), (Reg(S.fix, 0x18), Reg(S.fetch, 0x2C)), (Reg(S.fix, 0x24), 1),
                       (Reg(S.fix, 0x10), Encode(S.v, S.FixFields()))] + tail;
    var q2 := FixPokes(S, q1, tail);
    q := FetchPokes(S, q2, entry);
  }
}
