/** The compact machine performs one 8-byte record from fetch to fetch: fetch's write ring drops
    the record on the current bank channel, the bank runs at its preset count and mode, and its
    chain restarts fetch, through cleanup where the bank auto-returns. */
module Banks {
  import opened Words
  import opened Core
  import opened Planner
  import Compact
  import opened Chip
  import opened Control
  import opened Wiring
  import opened Bursts
  import opened Worker
  import opened Sequencer

  const FETCH := 7
  const CLEANUP := 8

  /** The SKU and the memory word holding the plain window for cleanup. */
  datatype Setup = Setup(v: Variant, cell: int) {
    predicate Ok() {
      InSram(v, cell, 4) && cell % 4 == 0
    }

    function AsRig(): (r: Rig)
      ensures r.Ok()
    {
      Rig(v, FETCH, SNIFF, cell / 4, Reg(PLAIN, 0x28), true)
    }
  }

  function FetchFields(): Fields { Fields(2, true, true, 3, false, false, FETCH) }
  function CleanupFields(): Fields { Fields(2, false, false, 0, false, false, CLEANUP) }

  /** A bank's static CTRL fields. */
  function BankFields(b: int): (f: Fields)
    requires 0 <= b < BANKS
    ensures f.Ok() && f.ring == 0
  {
    Fields(if b == SIZE8 || b == SIZE8W || b == SIZE8RW then 0 else if b == SIZE16 then 1 else 2,
           b == SIZE8RW, b == SIZE8W || b == SIZE8RW, 0, b == BSWAP, b == SNIFF,
               if AutoReturn(b) then CLEANUP else FETCH)
  }

  /** The bank modes the planner assumes are the ones these CTRL words encode. */
  lemma BankModes(b: int)
    requires 0 <= b < BANKS
    ensures ModeOf(BankFields(b)) == Compact.BankMode(b) && Compact.WindowOf(b) == Reg(b, 0x28)
    ensures Compact.BankOf(Reg(b, 0x28)) == b
  {
  }

  predicate FetchConfigured(S: Setup, f: Chan) {
    f.ctrl == Encode(S.v, FetchFields()) && f.reload == 2 && !f.wedged
  }

  predicate CleanupConfigured(S: Setup, x: Chan) {
    x.ctrl == Encode(S.v, CleanupFields()) && x.reload == 1 && !x.wedged && x.readAddr == S.cell
        && x.writeAddr == Reg(FETCH, 0x2C)
  }

  predicate BankConfigured(S: Setup, b: int, c: Chan)
    requires 0 <= b < BANKS
  {
    c.ctrl == Encode(S.v, BankFields(b)) && !c.wedged
  }

  ghost predicate Rest(S: Setup, m: Machine) {
    && S.Ok() && m.Ok() && m.dma.v == S.v && Base(S.AsRig(), m)
    && FetchConfigured(S, m.dma.ch[FETCH]) && CleanupConfigured(S, m.dma.ch[CLEANUP])
    && (forall b :: 0 <= b < BANKS ==> BankConfigured(S, b, m.dma.ch[b]))
    && forall j :: CLEANUP < j < SLOTS ==> !m.dma.ch[j].busy
  }

  /** Every channel but i is idle. */
  ghost predicate Only(m: Machine, i: int)
    requires m.Ok()
  {
    Alone(m.dma, i)
  }

  /** The machine with fetch's write pointer at bank b's window, where it is between records. */
  function AtWindow(m: Machine, b: int): (q: Machine)
    requires m.Ok() && 0 <= b < BANKS
    ensures q.Ok()
  {
    m.(dma := m.dma.(ch := m.dma.ch[FETCH := m.dma.ch[FETCH].(writeAddr := Reg(b, 0x28))]))
  }

  /** Fetch has j words of the record at pc behind it, bound for bank b. */
  ghost predicate Fetching(S: Setup, m: Machine, j: int, pc: int, b: int) {
    && m.Ok() && 0 <= b < BANKS && Rest(S, AtWindow(m, b)) && 0 <= j < 2 && 0 <= b < BANKS && Only(m, FETCH)
    && var f := m.dma.ch[FETCH];
       f.busy && f.mode == 0 && f.remaining == 2 - j && f.readAddr == pc + 4 * j && f.writeAddr == Reg(b, 0x28 + 4 * j)
  }

  lemma FetchingOk(S: Setup, m: Machine, j: int, pc: int, b: int)
    requires Fetching(S, m, j, pc, b)
    ensures S.Ok() && m.Ok() && m.dma.v == S.v && 0 <= b < BANKS && m.dma.ch[FETCH].readAddr == pc + 4 * j
    ensures 0 <= pc + 4 * j < M32
    ensures m.dma.ch[FETCH].writeAddr == Reg(b, 0x28 + 4 * j)
  {
  }

  lemma FetchArmed(S: Setup, m: Machine, j: int, pc: int, b: int)
    requires Fetching(S, m, j, pc, b)
    ensures Armed(m.dma.v, m.dma.ch[FETCH]) && Alone(m.dma, FETCH)
  {
    DecodeEncode(S.v, FetchFields());
    hide Encode, Decode, Base;
  }

  lemma PacedFetching(S: Setup, m: Machine, n: Machine, j: int, pc: int, b: int)
    requires m.Ok() && n.Ok() && SameButPace(m, n) && Fetching(S, m, j, pc, b)
    ensures Fetching(S, n, j, pc, b)
  {
    PacedRest(S, AtWindow(m, b), AtWindow(n, b));
    hide Rest;
  }

  lemma PacedRest(S: Setup, m: Machine, n: Machine)
    requires m.Ok() && n.Ok() && SameButPace(m, n) && Rest(S, m)
    ensures Rest(S, n)
  {
    PacedState(S.AsRig(), m, n);
    hide Base, Encode;
  }

  // ----- fetching a record -----

  /** The write that delivers word j to the bank. */
  function Delivered(m: Machine, b: int, j: int, pc: int): (d: Dma)
    requires m.Ok() && 0 <= b < SLOTS
    ensures d.Ok() && d.v == m.dma.v
  {
    var x := Peek(m.mem, pc / 4 + j);
    ChanWrite(m.dma, b, 0x28 + 4 * j, x, x != 0)
  }

  /** Fetch after word j: the ring has wrapped its write pointer back after the second. */
  function Fetched(m: Machine, d: Dma, b: int, j: int, pc: int): (q: Machine)
    requires m.Ok() && d.Ok() && 0 <= j < 2 && 0 <= b < BANKS && 0 <= pc < M32 - 8
    ensures q.Ok()
  {
    m.(dma := d.(ch := d.ch[FETCH :=
        d.ch[FETCH].(readAddr := pc + 4 * (j + 1), writeAddr := Reg(b, if j == 0 then 0x2C else 0x28),
                                                 remaining := 1 - j)]))
  }

  lemma Pointers(S: Setup, b: int, j: int, pc: int)
    requires S.Ok() && 0 <= b < BANKS && 0 <= j < 2 && InSram(S.v, pc, 8) && pc % 4 == 0
    ensures InSram(S.v, pc + 4 * j, 4) && (pc + 4 * j) % 4 == 0 && (pc + 4 * j) / 4 == pc / 4 + j
    ensures 0 <= pc + 4 * j < M32
    ensures 0 <= Reg(b, 0x28 + 4 * j) < M32 && Add(pc + 4 * j, 4) == pc + 4 * (j + 1)
    ensures Advance(Reg(b, 0x28 + 4 * j), 4, Pow2(3)) == Reg(b, if j == 0 then 0x2C else 0x28)
    ensures var off := Reg(b, 0x28 + 4 * j) - DMA - FETCH * STRIDE; !(0 <= off < STRIDE)
  {
    assert Pow2(3) == 8;
  }

  lemma BankReg(m: Machine, b: int, j: int, x: Word)
    requires m.Ok() && 0 <= b < BANKS && 0 <= j < 2
    ensures 0 <= Reg(b, 0x28 + 4 * j) < M32
    ensures BusWrite(m, Reg(b, 0x28 + 4 * j), x, 4) == Done(m.(dma := ChanWrite(m.dma, b, 0x28 + 4 * j, x, x != 0)))
  {
    hide RegRead, RegWrite, ChanWrite, BusWrite, BusRead;
    ChanReg(m.dma, b, 0x28 + 4 * j, x, x != 0);
    RegBus(m, 0, b * STRIDE + (0x28 + 4 * j), x, 4);
  }

  lemma FetchFront(S: Setup, m: Machine, j: int, pc: int, b: int)
    requires Fetching(S, m, j, pc, b) && InSram(S.v, pc, 8) && pc % 4 == 0
    ensures 0 <= Reg(b, 0x28 + 4 * j) < M32
    ensures Transfer(m, FETCH) ==
            Landed(m.(dma := Delivered(m, b, j, pc)), FETCH, Peek(m.mem, pc / 4 + j), Reg(b, 0x28 + 4 * j), 4)
  {
    hide Encode, Decode, Base, BusRead, BusWrite, Landed, Transfer, ChanWrite, Add, Advance, Reg, FieldAt;
    Pointers(S, b, j, pc);
    FetchRead(m, pc + 4 * j);
    BankReg(m, b, j, Peek(m.mem, pc / 4 + j));
    PlainPath(m, FETCH, FetchFields(), Peek(m.mem, pc / 4 + j), m.(dma := Delivered(m, b, j, pc)));
  }

  lemma FetchBack(S: Setup, m: Machine, d: Dma, j: int, pc: int, b: int, x: Word)
    requires Fetching(S, m, j, pc, b) && InSram(S.v, pc, 8) && pc % 4 == 0 && d.Ok() && d.v == S.v
    requires d.ch[FETCH] == m.dma.ch[FETCH]
    ensures 0 <= Reg(b, 0x28 + 4 * j) < M32
    ensures Landed(m.(dma := d), FETCH, x, Reg(b, 0x28 + 4 * j), 4) == Done(Finished(Fetched(m, d, b, j, pc), FETCH))
  {
    hide Encode, Decode, Base, Landed, Complete, Finished, Add, Advance, Reg, FieldAt, Pow2;
    Pointers(S, b, j, pc);
    LandedPlain(d, m.(dma := d), FETCH, x, Reg(b, 0x28 + 4 * j), FetchFields());
  }

  lemma FetchPath(S: Setup, m: Machine, j: int, pc: int, b: int)
    requires Fetching(S, m, j, pc, b) && InSram(S.v, pc, 8) && pc % 4 == 0
    requires Delivered(m, b, j, pc).ch[FETCH] == m.dma.ch[FETCH]
    ensures Transfer(m, FETCH) == Done(Finished(Fetched(m, Delivered(m, b, j, pc), b, j, pc), FETCH))
  {
    hide Encode, Base, Landed, Transfer, ChanWrite, Finished, Fetched, Reg;
    FetchFront(S, m, j, pc, b);
    FetchBack(S, m, Delivered(m, b, j, pc), j, pc, b, Peek(m.mem, pc / 4 + j));
  }

  /** Configurations that differ in run state and pointers only. */
  ghost predicate Handed(S: Setup, m: Machine, q: Machine)
    requires m.Ok() && q.Ok()
  {
    && q.mem == m.mem && q.dma.v == m.dma.v && q.dma.sctl == m.dma.sctl && IsWindow(q.dma.ch[FETCH].writeAddr)
    && (forall b :: 0 <= b < BANKS ==>
         q.dma.ch[b].ctrl == m.dma.ch[b].ctrl && q.dma.ch[b].wedged == m.dma.ch[b].wedged
             && q.dma.ch[b].reload == m.dma.ch[b].reload)
    && (forall j :: CLEANUP < j < SLOTS ==> q.dma.ch[j].busy == m.dma.ch[j].busy)
    && (FetchConfigured(S, m.dma.ch[FETCH]) ==> FetchConfigured(S, q.dma.ch[FETCH]))
    && (CleanupConfigured(S, m.dma.ch[CLEANUP]) ==> CleanupConfigured(S, q.dma.ch[CLEANUP]))
  }

  lemma HandedRest(S: Setup, m: Machine, q: Machine)
    requires Rest(S, m) && q.Ok() && Handed(S, m, q)
    ensures Rest(S, q)
  {
    hide FetchConfigured, CleanupConfigured, SniffOk, IsWindow, Encode;
  }

  lemma RestOf(S: Setup, m: Machine, b: int)
    requires m.Ok() && 0 <= b < BANKS && Rest(S, AtWindow(m, b)) && m.dma.ch[FETCH].writeAddr == Reg(b, 0x28)
    ensures Rest(S, m) && AtWindow(m, b) == m
  {
    hide Rest;
    assert m.dma.ch[FETCH := m.dma.ch[FETCH].(writeAddr := Reg(b, 0x28))] == m.dma.ch;
  }

  /** The first word: the bank's READ_ADDR. */
  lemma FirstWord(S: Setup, m: Machine, pc: int, b: int) returns (q: Machine)
    requires Fetching(S, m, 0, pc, b) && InSram(S.v, pc, 8) && pc % 4 == 0
    ensures Step(m) == Done(q) && Fetching(S, q, 1, pc, b) && q.dma.ch[b].readAddr == Peek(q.mem, pc / 4)
    ensures q.mem == m.mem && q.dma.sdata == m.dma.sdata && q.dma.sctl == m.dma.sctl
    ensures forall k :: 0 <= k < BANKS ==> q.dma.ch[k].reload == m.dma.ch[k].reload
  {
    hide Step, Transfer, Base, Encode, Decode, SniffOk, IsWindow;
    FetchArmed(S, m, 0, pc, b);
    var n := SoleStep(m, FETCH);
    PacedFetching(S, m, n, 0, pc, b);
    var x := Peek(n.mem, pc / 4);
    var d := n.dma.(ch := n.dma.ch[b := n.dma.ch[b].(readAddr := x)]);
    assert Delivered(n, b, 0, pc) == d;
    FetchPath(S, n, 0, pc, b);
    q := Fetched(n, d, b, 0, pc);
    hide Delivered;
    WindowAt(b);
    HandedRest(S, AtWindow(n, b), AtWindow(q, b));
  }

  lemma WindowAt(b: int)
    requires 0 <= b < BANKS
    ensures 0 <= Reg(b, 0x28) < M32 && IsWindow(Reg(b, 0x28))
  {
  }

  // ----- the record starts -----

  /** Channel w carries on after fetch, which has stopped with its pointer back at the window. */
  ghost predicate Between(S: Setup, m: Machine, w: int, pc: int) {
    && Rest(S, m) && 0 <= w <= CLEANUP && w != FETCH && Only(m, w) && m.dma.ch[FETCH].readAddr == pc
    && m.dma.ch[w].busy && m.dma.ch[w].mode == 0
  }

  /** Delivering a nonzero WRITE_ADDR to a bank with a nonzero count arms it. */
  lemma StartsBank(S: Setup, d: Dma, b: int, x: Word)
    requires d.Ok() && d.v == S.v && 0 <= b < BANKS && BankConfigured(S, b, d.ch[b]) && !d.ch[b].busy && x != 0
    requires S.v.Mode(d.ch[b].reload) == 0 && d.ch[b].reload > 0
    ensures var c := d.ch[b];
            ChanWrite(d, b, 0x2C, x, true) ==
            d.(ch := d.ch[b := c.(writeAddr := x, mode := 0, credit := 0, busy := true, remaining := c.reload)])
  {
    DecodeEncode(S.v, BankFields(b));
    hide Encode, Decode, Flag, Trigger;
    var c := d.ch[b].(writeAddr := x);
    var d1 := d.(ch := d.ch[b := c]);
    assert ChanWrite(d, b, 0x2C, x, true) == Trigger(d1, b, 0);
    Arms(d1, b, 0);
    var c' := c.(mode := 0, credit := 0, busy := true, remaining := c.reload);
    assert d1.ch[b := c'] == d.ch[b := c'];
  }

  /** With a zero count the bank completes at once. An auto-return bank arms cleanup; the others
      chain to fetch, which is still busy delivering this very word, so nothing is armed. */
  lemma EmptyBank(S: Setup, d: Dma, b: int, x: Word)
    requires d.Ok() && d.v == S.v && 0 <= b < BANKS && BankConfigured(S, b, d.ch[b]) && !d.ch[b].busy && x != 0
    requires d.ch[b].reload == 0
    requires CleanupConfigured(S, d.ch[CLEANUP]) && !d.ch[CLEANUP].busy && d.ch[FETCH].busy
    ensures var c := d.ch[b].(writeAddr := x, mode := 0, credit := 0, busy := false);
            var y := d.ch[CLEANUP].(mode := 0, credit := 0, busy := true, remaining := 1);
            ChanWrite(d, b, 0x2C, x, true) ==
            if AutoReturn(b) then d.(ch := d.ch[b := c][CLEANUP := y]) else d.(ch := d.ch[b := c])
  {
    DecodeEncode(S.v, BankFields(b)); DecodeEncode(S.v, CleanupFields());
    hide Encode, Decode, Flag, Complete;
    var c := d.ch[b].(writeAddr := x);
    var d1 := d.(ch := d.ch[b := c]);
    assert ChanWrite(d, b, 0x2C, x, true) == Trigger(d1, b, 0);
    var c2 := c.(mode := 0, credit := 0);
    var d2 := d1.(ch := d1.ch[b := c2]);
    assert Trigger(d1, b, 0) == Complete(d2, b, 1);
    var c3 := c2.(busy := false);
    assert d2.ch[b := c3] == d.ch[b := c3];
    if AutoReturn(b) {
      Chains(d2, b, 1, BankFields(b));
    } else {
      ChainsToBusy(d2, b, 1, BankFields(b));
    }
  }

  /** A chain to a running channel is lost. */
  lemma ChainsToBusy(d: Dma, i: int, depth: nat, f: Fields)
    requires d.Ok() && 0 <= i < SLOTS && depth <= MAX_DEPTH && f.Ok() && f.chain != i && d.ch[i].ctrl == Encode(d.v, f)
    requires d.ch[i].mode == 0 && d.ch[f.chain].busy
    ensures Complete(d, i, depth) == d.(ch := d.ch[i := d.ch[i].(busy := false)])
  {
    DecodeEncode(d.v, f);
    hide Encode, Decode, Flag;
  }

  /** Fetch's second transfer also stops it. */
  lemma SecondWord(S: Setup, m: Machine, pc: int, b: int, d: Dma)
    requires Fetching(S, m, 1, pc, b) && InSram(S.v, pc, 8) && pc % 4 == 0 && Delivered(m, b, 1, pc) == d
    requires d.ch[FETCH] == m.dma.ch[FETCH]
    ensures var f := d.ch[FETCH].(readAddr := pc + 8, writeAddr := Reg(b, 0x28), remaining := 0, busy := false);
            Transfer(m, FETCH) == Done(m.(dma := d.(ch := d.ch[FETCH := f])))
  {
    hide Encode, Base, Transfer, ChanWrite, Complete;
    FetchPath(S, m, 1, pc, b);
    var e := Fetched(m, d, b, 1, pc).dma;
    Stops(e, FETCH, 0, FetchFields());
    assert e.ch[FETCH := e.ch[FETCH].(busy := false)] == d.ch[FETCH := e.ch[FETCH].(busy := false)];
  }

  /** The record whose words sit at pc, for a bank whose count is k. */
  predicate RecordAt(S: Setup, mem: map<int, Word>, pc: int, src: Loc, dst: Loc, k: Word) {
    Peek(mem, pc / 4 + 1) != 0 &&
    (k > 0 ==> Peek(mem, pc / 4) == Addr(S.AsRig(), src) && Peek(mem, pc / 4 + 1) == Addr(S.AsRig(), dst))
  }

  lemma CountsOk(S: Setup, m: Machine, b: int)
    requires m.Ok() && 0 <= b < BANKS && Rest(S, AtWindow(m, b))
    ensures m.dma.v == S.v && S.v.Mode(m.dma.ch[b].reload) == 0 && BankConfigured(S, b, m.dma.ch[b])
    ensures FetchConfigured(S, m.dma.ch[FETCH]) && CleanupConfigured(S, m.dma.ch[CLEANUP])
    ensures SniffOk(S.AsRig(), m.dma.sctl)
  {
    hide Encode, SniffOk, IsWindow;
    var q := AtWindow(m, b);
    assert q.dma.ch[b] == m.dma.ch[b] && BankConfigured(S, b, q.dma.ch[b]) && S.v.Mode(q.dma.ch[b].reload) == 0;
  }

  predicate SameSettings(c: Chan, c': Chan) {
    c'.ctrl == c.ctrl && c'.wedged == c.wedged && c'.reload == c.reload
  }

  /** Fetch stopped at window b, and channel w armed: the configuration is intact. */
  lemma HandedOver(S: Setup, m: Machine, q: Machine, b: int)
    requires m.Ok() && q.Ok() && 0 <= b < BANKS && Rest(S, AtWindow(m, b)) && q.dma.ch[FETCH].writeAddr == Reg(b, 0x28)
    requires q.mem == m.mem && q.dma.v == m.dma.v && q.dma.sctl == m.dma.sctl
    requires forall i :: 0 <= i < SLOTS ==> SameSettings(m.dma.ch[i], q.dma.ch[i])
    requires q.dma.ch[CLEANUP].readAddr == m.dma.ch[CLEANUP].readAddr
    requires q.dma.ch[CLEANUP].writeAddr == m.dma.ch[CLEANUP].writeAddr
    requires forall j :: CLEANUP < j < SLOTS ==> !q.dma.ch[j].busy
    ensures Rest(S, q)
  {
    hide Encode, SniffOk, IsWindow, Base;
    WindowAt(b);
    HandedRest(S, AtWindow(m, b), AtWindow(q, b));
    RestOf(S, q, b);
  }

  /** The cycle that hands the record to its bank. */
  lemma HandToBank(S: Setup, m: Machine, pc: int, b: int, src: Loc, dst: Loc) returns (q: Machine)
    requires Fetching(S, m, 1, pc, b) && InSram(S.v, pc, 8) && pc % 4 == 0
    requires m.dma.ch[b].readAddr == Peek(m.mem, pc / 4)
    requires m.dma.ch[b].reload > 0 && RecordAt(S, m.mem, pc, src, dst, m.dma.ch[b].reload)
    ensures Step(m) == Done(q) && Between(S, q, b, pc + 8) && q.dma.ch[FETCH].writeAddr == Reg(b, 0x28)
    ensures Working(S.AsRig(), q, b, src, dst, BankFields(b)) && q.dma.ch[b].remaining == m.dma.ch[b].reload
    ensures q.mem == m.mem && q.dma.sdata == m.dma.sdata && q.dma.sctl == m.dma.sctl
    ensures forall k :: 0 <= k < BANKS ==> q.dma.ch[k].reload == m.dma.ch[k].reload
  {
    hide Step, Transfer, Base, Encode, Decode, SniffOk, IsWindow, Addr, Rest;
    FetchArmed(S, m, 1, pc, b);
    var n := SoleStep(m, FETCH);
    PacedFetching(S, m, n, 1, pc, b);
    CountsOk(S, n, b);
    var x := Peek(n.mem, pc / 4 + 1);
    StartsBank(S, n.dma, b, x);
    var d := ChanWrite(n.dma, b, 0x2C, x, true);
    hide ChanWrite;
    SecondWord(S, n, pc, b, d);
    q := Transfer(n, FETCH).value;
    HandedOver(S, n, q, b);
  }

  /** The same cycle when the bank's count is zero. */
  lemma HandEmpty(S: Setup, m: Machine, pc: int, b: int) returns (q: Machine)
    requires Fetching(S, m, 1, pc, b) && InSram(S.v, pc, 8) && pc % 4 == 0 && m.dma.ch[b].reload == 0
    requires Peek(m.mem, pc / 4 + 1) != 0
    ensures Step(m) == Done(q) && q.dma.ch[FETCH].writeAddr == Reg(b, 0x28)
    ensures AutoReturn(b) ==> Between(S, q, CLEANUP, pc + 8) && q.dma.ch[CLEANUP].remaining == 1
    ensures !AutoReturn(b) ==> forall i :: 0 <= i < SLOTS ==> !q.dma.ch[i].busy
    ensures q.mem == m.mem && q.dma.sdata == m.dma.sdata && q.dma.sctl == m.dma.sctl
    ensures forall k :: 0 <= k < BANKS ==> q.dma.ch[k].reload == m.dma.ch[k].reload
  {
    hide Step, Transfer, Base, Encode, Decode, SniffOk, IsWindow, Addr, Rest;
    FetchArmed(S, m, 1, pc, b);
    var n := SoleStep(m, FETCH);
    PacedFetching(S, m, n, 1, pc, b);
    CountsOk(S, n, b);
    var x := Peek(n.mem, pc / 4 + 1);
    EmptyBank(S, n.dma, b, x);
    var d := ChanWrite(n.dma, b, 0x2C, x, true);
    hide ChanWrite;
    SecondWord(S, n, pc, b, d);
    q := Transfer(n, FETCH).value;
    HandedOver(S, n, q, b);
  }

  /** A null record leaves every channel idle. */
  lemma HandNull(S: Setup, m: Machine, pc: int, b: int) returns (q: Machine)
    requires Fetching(S, m, 1, pc, b) && InSram(S.v, pc, 8) && pc % 4 == 0 && Peek(m.mem, pc / 4 + 1) == 0
    ensures Step(m) == Done(q) && q.mem == m.mem && q.dma.sdata == m.dma.sdata && q.dma.sctl == m.dma.sctl
    ensures forall i :: 0 <= i < SLOTS ==> !q.dma.ch[i].busy
  {
    hide Step, Transfer, Base, Encode, Decode, SniffOk, IsWindow, Rest;
    FetchArmed(S, m, 1, pc, b);
    var n := SoleStep(m, FETCH);
    PacedFetching(S, m, n, 1, pc, b);
    var d := ChanWrite(n.dma, b, 0x2C, 0, false);
    assert d.ch == n.dma.ch[b := n.dma.ch[b].(writeAddr := 0)];
    hide ChanWrite;
    SecondWord(S, n, pc, b, d);
    q := Transfer(n, FETCH).value;
  }

  // ----- the bank finishes -----

  /** The bank a window value names. */
  lemma WindowBank(x: Word) returns (b: int)
    requires IsWindow(x)
    ensures 0 <= b < BANKS && x == Reg(b, 0x28)
  {
    b :| 0 <= b < 7 && x == Reg(b, 0x28);
  }

  lemma KeptRest(S: Setup, m: Machine, q: Machine, b: int)
    requires Rest(S, m) && q.Ok() && 0 <= b < BANKS && Base(S.AsRig(), q) && Kept(S.AsRig(), b, m.dma, q.dma)
    ensures Rest(S, q)
  {
    hide Base, Encode;
    KeptCleanup(S, m, q, b);
    forall k | 0 <= k < BANKS ensures BankConfigured(S, k, q.dma.ch[k]) {
      assert BankConfigured(S, k, m.dma.ch[k]);
      assert k != b ==> ChanKept(S.AsRig(), k, m.dma.ch[k], q.dma.ch[k]);
    }
    forall j | CLEANUP < j < SLOTS ensures !q.dma.ch[j].busy {
      assert ChanKept(S.AsRig(), j, m.dma.ch[j], q.dma.ch[j]);
    }
    assert q.dma.v == S.v by { BaseV(S, q); }
  }

  lemma BaseV(S: Setup, q: Machine)
    requires Base(S.AsRig(), q)
    ensures q.dma.v == S.v
  {
  }

  lemma KeptCleanup(S: Setup, m: Machine, q: Machine, b: int)
    requires m.Ok() && q.Ok() && 0 <= b < BANKS && Kept(S.AsRig(), b, m.dma, q.dma)
    ensures FetchConfigured(S, m.dma.ch[FETCH]) ==> FetchConfigured(S, q.dma.ch[FETCH])
    ensures CleanupConfigured(S, m.dma.ch[CLEANUP]) ==> CleanupConfigured(S, q.dma.ch[CLEANUP])
  {
    hide Encode;
    assert ChanKept(S.AsRig(), FETCH, m.dma.ch[FETCH], q.dma.ch[FETCH]);
    assert ChanKept(S.AsRig(), CLEANUP, m.dma.ch[CLEANUP], q.dma.ch[CLEANUP]);
  }

  /** A finished bank arms the channel it chains to. */
  lemma BankChains(S: Setup, q: Machine, b: int)
    requires Rest(S, q) && 0 <= b < BANKS && Only(q, b) && q.dma.ch[b].mode == 0
    ensures var d, to := q.dma, if AutoReturn(b) then CLEANUP else FETCH;
            var c := d.ch[to].(mode := 0, credit := 0, busy := true, remaining := d.ch[to].reload);
            Complete(d, b, 0) == d.(ch := d.ch[b := d.ch[b].(busy := false)][to := c])
  {
    DecodeEncode(S.v, FetchFields()); DecodeEncode(S.v, CleanupFields());
    assert BankConfigured(S, b, q.dma.ch[b]);
    hide Encode, Decode, Complete, Base;
    Chains(q.dma, b, 0, BankFields(b));
  }

  /** The bank's moves leave the machinery ready for its completion. */
  lemma BankKept(S: Setup, m: Machine, q: Machine, b: int, pc: int)
    requires Between(S, m, b, pc) && b < BANKS && q.Ok() && Base(S.AsRig(), q) && Kept(S.AsRig(), b, m.dma, q.dma)
    ensures Rest(S, q) && Only(q, b) && q.dma.ch[b].mode == 0 && IsWindow(q.dma.ch[FETCH].writeAddr)
  {
    KeptRest(S, m, q, b);
    KeptIdle(S, m, q, b);
    hide Rest, Kept, SniffOk, IsWindow;
  }

  lemma Completed(S: Setup, q: Machine, b: int, b': int) returns (t: Machine)
    requires Rest(S, q) && 0 <= b < BANKS && 0 <= b' < BANKS && Only(q, b) && q.dma.ch[b].mode == 0
    requires q.dma.ch[FETCH].writeAddr == Reg(b', 0x28)
    ensures t.Ok() && t == q.(dma := Complete(q.dma, b, 0)) && Rest(S, t)
    ensures StateOf(S.AsRig(), t) == StateOf(S.AsRig(), q)
    ensures t.dma.ch[FETCH].writeAddr == Reg(b', 0x28) && t.dma.ch[FETCH].readAddr == q.dma.ch[FETCH].readAddr
    ensures var to := if AutoReturn(b) then CLEANUP else FETCH;
            Only(t, to) && t.dma.ch[to].busy && t.dma.ch[to].mode == 0 && t.dma.ch[to].remaining == q.dma.ch[to].reload
  {
    hide Encode, Complete, Base;
    BankChains(S, q, b);
    t := q.(dma := Complete(q.dma, b, 0));
    RestAtWindow(S, q, b', b');
    HandedOver(S, q, t, b');
    hide CountsOf;
    CountsByReload(S.AsRig(), q.dma.ch, t.dma.ch);
  }

  /** A bank that chains to fetch restarts it. */
  lemma BankToFetch(S: Setup, m: Machine, q: Machine, b: int, pc: int) returns (t: Machine, b': int)
    requires Between(S, m, b, pc) && b < BANKS && !AutoReturn(b) && q.Ok() && Base(S.AsRig(), q)
    requires Kept(S.AsRig(), b, m.dma, q.dma)
    ensures t.Ok() && t == q.(dma := Complete(q.dma, b, 0)) && Fetching(S, t, 0, q.dma.ch[FETCH].readAddr, b')
    ensures StateOf(S.AsRig(), t) == StateOf(S.AsRig(), q)
  {
    BankKept(S, m, q, b, pc);
    b' := WindowBank(q.dma.ch[FETCH].writeAddr);
    hide Between, Base, Kept, Complete, StateOf, Encode;
    t := Completed(S, q, b, b');
    RestAtWindow(S, t, b', b');
  }

  lemma KeptIdle(S: Setup, m: Machine, q: Machine, b: int)
    requires m.Ok() && q.Ok() && 0 <= b < BANKS && Kept(S.AsRig(), b, m.dma, q.dma) && Only(m, b)
    ensures Only(q, b) && q.dma.ch[b].mode == m.dma.ch[b].mode && q.dma.ch[b].busy == m.dma.ch[b].busy
  {
  }

  /** A bank that auto-returns arms cleanup. */
  lemma BankToCleanup(S: Setup, m: Machine, q: Machine, b: int, pc: int) returns (t: Machine)
    requires Between(S, m, b, pc) && b < BANKS && AutoReturn(b) && q.Ok() && Base(S.AsRig(), q)
    requires Kept(S.AsRig(), b, m.dma, q.dma)
    ensures t.Ok() && t == q.(dma := Complete(q.dma, b, 0)) && Between(S, t, CLEANUP, q.dma.ch[FETCH].readAddr)
    ensures t.dma.ch[CLEANUP].remaining == 1 && StateOf(S.AsRig(), t) == StateOf(S.AsRig(), q)
  {
    BankKept(S, m, q, b, pc);
    var b' := WindowBank(q.dma.ch[FETCH].writeAddr);
    hide Base, Kept, Complete, StateOf, Encode;
    t := Completed(S, q, b, b');
  }

  /** Cleanup's transfer points fetch at the plain window and restarts it. */
  lemma Retrigger(S: Setup, m: Machine, x: Word)
    requires m.Ok() && m.dma.v == S.v && FetchConfigured(S, m.dma.ch[FETCH]) && !m.dma.ch[FETCH].busy && x != 0
    ensures var f := m.dma.ch[FETCH].(writeAddr := x, mode := 0, credit := 0, busy := true, remaining := 2);
            BusWrite(m, Reg(FETCH, 0x2C), x, 4) == Done(m.(dma := m.dma.(ch := m.dma.ch[FETCH := f])))
  {
    hide RegRead, RegWrite, BusWrite, BusRead, Encode, Decode, Flag, Trigger;
    DecodeEncode(S.v, FetchFields());
    ChanReg(m.dma, FETCH, 0x2C, x, true);
    RegBus(m, 0, FETCH * STRIDE + 0x2C, x, 4);
    var d := m.dma.(ch := m.dma.ch[FETCH := m.dma.ch[FETCH].(writeAddr := x)]);
    assert ChanWrite(m.dma, FETCH, 0x2C, x, true) == Trigger(d, FETCH, 0);
    Arms(d, FETCH, 0);
    var f := m.dma.ch[FETCH].(writeAddr := x, mode := 0, credit := 0, busy := true, remaining := 2);
    assert S.v.Count(2) == 2 && S.v.Mode(2) == 0;
    assert d.ch[FETCH := f] == m.dma.ch[FETCH := f];
  }

  lemma CleanupTransfer(S: Setup, m: Machine, pc: int)
    requires Between(S, m, CLEANUP, pc) && m.dma.ch[CLEANUP].remaining == 1
    ensures var d, w := m.dma, Reg(PLAIN, 0x28);
            var f := d.ch[FETCH].(writeAddr := w, mode := 0, credit := 0, busy := true, remaining := 2);
            var x := d.ch[CLEANUP].(remaining := 0, busy := false);
            Transfer(m, CLEANUP) == Done(m.(dma := d.(ch := d.ch[FETCH := f][CLEANUP := x])))
  {
    var d, w := m.dma, Reg(PLAIN, 0x28);
    var f := d.ch[FETCH].(writeAddr := w, mode := 0, credit := 0, busy := true, remaining := 2);
    var d1 := d.(ch := d.ch[FETCH := f]);
    assert Peek(m.mem, S.cell / 4) == w;
    hide Encode, Decode, Base, BusRead, BusWrite, Landed, Transfer, Complete, FetchConfigured, BankConfigured, Pow2;
    FetchRead(m, S.cell);
    Retrigger(S, m, w);
    PlainPath(m, CLEANUP, CleanupFields(), w, m.(dma := d1));
    LandedPlain(d1, m.(dma := d1), CLEANUP, w, Reg(FETCH, 0x2C), CleanupFields());
    var x := d.ch[CLEANUP].(remaining := 0);
    var d2 := d1.(ch := d1.ch[CLEANUP := x]);
    Stops(d2, CLEANUP, 0, CleanupFields());
    assert d2.ch[CLEANUP := x.(busy := false)] == d1.ch[CLEANUP := x.(busy := false)];
  }

  lemma CleanupStep(S: Setup, m: Machine, pc: int) returns (q: Machine)
    requires Between(S, m, CLEANUP, pc) && m.dma.ch[CLEANUP].remaining == 1
    ensures Step(m) == Done(q) && Fetching(S, q, 0, pc, PLAIN)
    ensures StateOf(S.AsRig(), q) == StateOf(S.AsRig(), m).(win := Reg(PLAIN, 0x28))
  {
    hide Step, Transfer, Encode, Decode, SniffOk, CountsOf, IsWindow;
    DecodeEncode(S.v, CleanupFields());
    var b' := WindowBank(m.dma.ch[FETCH].writeAddr);
    hide Base;
    var n := SoleStep(m, CLEANUP);
    PacedRest(S, m, n);
    CleanupTransfer(S, n, pc);
    q := Transfer(n, CLEANUP).value;
    RestAtWindow(S, n, b', PLAIN);
    HandedOver(S, n, q, PLAIN);
    CountsByReload(S.AsRig(), m.dma.ch, q.dma.ch);
  }

  /** The invariant does not care which window fetch points at. */
  lemma RestAtWindow(S: Setup, m: Machine, b: int, b': int)
    requires Rest(S, m) && 0 <= b < BANKS && 0 <= b' < BANKS && m.dma.ch[FETCH].writeAddr == Reg(b, 0x28)
    ensures Rest(S, AtWindow(m, b'))
  {
    hide Encode, SniffOk, IsWindow, Base;
    WindowAt(b');
    HandedRest(S, m, AtWindow(m, b'));
  }

  // ----- fetch to fetch -----

  lemma TwoSteps(m: Machine, q1: Machine, q2: Machine)
    requires m.Ok() && q1.Ok() && Step(m) == Done(q1) && Step(q1) == Done(q2)
    ensures Steps(m, 2) == Done(q2)
  {
    hide Step;
    assert Steps(m, 0) == Done(m);
    assert Steps(m, 1) == Done(q1);
  }

  lemma OneMore(m: Machine, n: nat, t: Machine, q: Machine)
    requires m.Ok() && t.Ok() && Steps(m, n) == Done(t) && Step(t) == Done(q)
    ensures Steps(m, n + 1) == Done(q)
  {
    hide Step;
  }

  /** Two cycles fetch the record and hand it to the bank; the program sees only %pc move. */
  lemma FetchRecord(S: Setup, m: Machine, pc: int, b: int, src: Loc, dst: Loc) returns (q: Machine)
    requires Fetching(S, m, 0, pc, b) && InSram(S.v, pc, 8) && pc % 4 == 0 && m.dma.ch[b].reload > 0
    requires RecordAt(S, m.mem, pc, src, dst, m.dma.ch[b].reload)
    ensures q.Ok() && Steps(m, 2) == Done(q) && Between(S, q, b, pc + 8)
    ensures Working(S.AsRig(), q, b, src, dst, BankFields(b)) && q.dma.ch[b].remaining == m.dma.ch[b].reload
    ensures StateOf(S.AsRig(), q) == StateOf(S.AsRig(), m).(pc := pc + 8)
  {
    hide Step, Steps, RecordAt, InSram, Rest, Working, CountsOf;
    FetchingOk(S, m, 0, pc, b);
    var q1 := FirstWord(S, m, pc, b);
    FetchingOk(S, q1, 1, pc, b);
    RecordStays(S, m, q1, pc, b, src, dst);
    q := HandToBank(S, q1, pc, b, src, dst);
    TwoSteps(m, q1, q);
    CountsByReload(S.AsRig(), m.dma.ch, q.dma.ch);
  }

  lemma RecordStays(S: Setup, m: Machine, q: Machine, pc: int, b: int, src: Loc, dst: Loc)
    requires m.Ok() && q.Ok() && 0 <= b < BANKS && q.mem == m.mem && q.dma.ch[b].reload == m.dma.ch[b].reload
    requires RecordAt(S, m.mem, pc, src, dst, m.dma.ch[b].reload)
    ensures RecordAt(S, q.mem, pc, src, dst, q.dma.ch[b].reload)
  {
  }

  /** The record asks only for moves a program may make on its bank. */
  ghost predicate Legal(S: Setup, s: State, pc: int, b: int, src: Loc, dst: Loc) {
    && S.Ok() && 0 <= b < BANKS && InSram(S.v, pc, 8) && pc % 4 == 0 && s.win == Reg(b, 0x28)
    && RecordAt(S, s.mem, pc, src, dst, Peek(s.cnt, b))
    && Aligned(src, Size(BankFields(b).sizeLog)) && Aligned(dst, Size(BankFields(b).sizeLog))
    && MovesOk(S.AsRig(), b, s.(pc := pc + 8), src, dst, BankFields(b), Peek(s.cnt, b))
  }

  /** What the record does, %pc already past it. */
  ghost function Effect(s: State, pc: int, b: int, src: Loc, dst: Loc): State
    requires 0 <= b < BANKS && Aligned(src, Size(BankFields(b).sizeLog)) && Aligned(dst, Size(BankFields(b).sizeLog))
    requires 0 <= pc < M32 - 8
  {
    var t := Burst(s.(pc := pc + 8), src, dst, ModeOf(BankFields(b)), Peek(s.cnt, b));
    if AutoReturn(b) then t.(win := Reg(PLAIN, 0x28)) else t
  }

  /** That is the compact machine's own step. */
  lemma EffectIsRecord(S: Setup, s: State, pc: int, b: int, src: Loc, dst: Loc)
    requires Legal(S, s, pc, b, src, dst)
    ensures var r, t := Compact.Record(src, dst), s.(pc := pc + 8);
            Compact.Runs(r, Compact.BankOf(t.win)) && Effect(s, pc, b, src, dst) == Compact.ExecRecord(t, r)
  {
    BankModes(b); BankModes(PLAIN);
    hide Burst, MovesOk, RecordAt, InSram;
  }

  lemma CountIs(S: Setup, m: Machine, b: int)
    requires m.Ok() && 0 <= b < BANKS
    ensures Peek(StateOf(S.AsRig(), m).cnt, b) == m.dma.ch[b].reload && StateOf(S.AsRig(), m).mem == m.mem
  {
  }

  /** Bank and, where it auto-returns, cleanup. */
  lemma BankRun(S: Setup, m: Machine, pc: int, b: int, src: Loc, dst: Loc, k: nat) returns (q: Machine, b': int)
    requires Between(S, m, b, pc) && b < BANKS && Working(S.AsRig(), m, b, src, dst, BankFields(b))
    requires m.dma.ch[b].remaining == k
    requires MovesOk(S.AsRig(), b, StateOf(S.AsRig(), m), src, dst, BankFields(b), k)
    ensures q.Ok() && Steps(m, if AutoReturn(b) then k + 1 else k) == Done(q)
    ensures Fetching(S, q, 0, q.dma.ch[FETCH].readAddr, b')
    ensures Aligned(src, Size(BankFields(b).sizeLog)) && Aligned(dst, Size(BankFields(b).sizeLog))
    ensures var t := Burst(StateOf(S.AsRig(), m), src, dst, ModeOf(BankFields(b)), k);
            StateOf(S.AsRig(), q) == if AutoReturn(b) then t.(win := Reg(PLAIN, 0x28)) else t
  {
    hide Step, Steps, MovesOk, Complete, Kept, StateOf, SniffOk, Encode, BankFields, IsWindow;
    var r := S.AsRig();
    var e := WorkRun(r, m, b, src, dst, BankFields(b), k);
    hide Base, Working;
    if AutoReturn(b) {
      var t := BankToCleanup(S, m, e, b, pc);
      b' := PLAIN;
      q := CleanupStep(S, t, e.dma.ch[FETCH].readAddr);
      OneMore(m, k, t, q);
      FetchingOk(S, q, 0, e.dma.ch[FETCH].readAddr, b');
    } else {
      q, b' := BankToFetch(S, m, e, b, pc);
      FetchingOk(S, q, 0, e.dma.ch[FETCH].readAddr, b');
    }
  }

  /** How many cycles the record takes. */
  function Cycles(b: int, k: nat): nat {
    2 + k + if AutoReturn(b) then 1 else 0
  }

  /** From fetch to fetch the machine performs exactly the record at %pc on the bank its window
      selects; the window and counts are as the record and the auto-return leave them. */
  lemma RecordRuns(S: Setup, m: Machine, pc: int, b: int, src: Loc, dst: Loc) returns (q: Machine, b': int)
    requires Fetching(S, m, 0, pc, b) && Legal(S, StateOf(S.AsRig(), m), pc, b, src, dst)
    requires m.dma.ch[b].reload > 0 || AutoReturn(b)
    ensures q.Ok() && Steps(m, Cycles(b, m.dma.ch[b].reload)) == Done(q)
    ensures Fetching(S, q, 0, StateOf(S.AsRig(), q).pc, b')
    ensures StateOf(S.AsRig(), q) == Effect(StateOf(S.AsRig(), m), pc, b, src, dst)
  {
    CountIs(S, m, b);
    var s := StateOf(S.AsRig(), m);
    hide Fetching, StateOf, Steps, Step, MovesOk, RecordAt;
    if m.dma.ch[b].reload > 0 {
      q, b' := FullRecordRuns(S, m, s, pc, b, src, dst);
    } else {
      q := EmptyRecordRuns(S, m, pc, b);
      b' := PLAIN;
      NoBurst(s.(pc := pc + 8), src, dst, ModeOf(BankFields(b)));
    }
    PcIs(S, q);
  }

  lemma NoBurst(s: State, src: Loc, dst: Loc, md: Core.Mode)
    requires md.Ok() && Aligned(src, md.size) && Aligned(dst, md.size)
    ensures Burst(s, src, dst, md, 0) == s
  {
  }

  lemma PcIs(S: Setup, q: Machine)
    requires q.Ok()
    ensures StateOf(S.AsRig(), q).pc == q.dma.ch[FETCH].readAddr
    ensures StateOf(S.AsRig(), q).win == q.dma.ch[FETCH].writeAddr
  {
  }

  lemma FullRecordRuns(S: Setup, m: Machine, s: State, pc: int, b: int, src: Loc, dst: Loc)
    returns (q: Machine, b': int)
    requires Fetching(S, m, 0, pc, b) && s == StateOf(S.AsRig(), m) && m.dma.ch[b].reload > 0
    requires Peek(s.cnt, b) == m.dma.ch[b].reload
    requires s.mem == m.mem && Legal(S, s, pc, b, src, dst)
    ensures q.Ok() && Steps(m, Cycles(b, m.dma.ch[b].reload)) == Done(q)
    ensures Fetching(S, q, 0, q.dma.ch[FETCH].readAddr, b')
    ensures StateOf(S.AsRig(), q) == Effect(s, pc, b, src, dst)
  {
    hide Steps, Step, MovesOk, Between, Working, InSram, Rest, Burst, CountsOf;
    var q2 := FetchRecord(S, m, pc, b, src, dst);
    q, b' := FullTail(S, m, q2, s.(pc := pc + 8), pc + 8, b, src, dst, m.dma.ch[b].reload);
  }

  lemma FullTail(S: Setup, m: Machine, q2: Machine, s: State, pc: int, b: int, src: Loc, dst: Loc, k: nat)
    returns (q: Machine, b': int)
    requires m.Ok() && q2.Ok() && 0 <= b < BANKS && Steps(m, 2) == Done(q2) && Between(S, q2, b, pc)
    requires Working(S.AsRig(), q2, b, src, dst, BankFields(b)) && q2.dma.ch[b].remaining == k
    requires StateOf(S.AsRig(), q2) == s
    requires MovesOk(S.AsRig(), b, s, src, dst, BankFields(b), k)
    ensures Aligned(src, Size(BankFields(b).sizeLog)) && Aligned(dst, Size(BankFields(b).sizeLog))
    ensures q.Ok() && Steps(m, Cycles(b, k)) == Done(q) && Fetching(S, q, 0, q.dma.ch[FETCH].readAddr, b')
    ensures var t := Burst(s, src, dst, ModeOf(BankFields(b)), k);
            StateOf(S.AsRig(), q) == if AutoReturn(b) then t.(win := Reg(PLAIN, 0x28)) else t
  {
    hide Fetching, StateOf, Steps, Step, MovesOk, Between, Working, BankFields;
    q, b' := BankRun(S, q2, pc, b, src, dst, k);
    StepsAdd(m, 2, if AutoReturn(b) then k + 1 else k);
  }

  lemma EmptyRecordRuns(S: Setup, m: Machine, pc: int, b: int) returns (q: Machine)
    requires Fetching(S, m, 0, pc, b) && InSram(S.v, pc, 8) && pc % 4 == 0 && m.dma.ch[b].reload == 0 && AutoReturn(b)
    requires Peek(m.mem, pc / 4 + 1) != 0
    ensures q.Ok() && Steps(m, 3) == Done(q) && Fetching(S, q, 0, q.dma.ch[FETCH].readAddr, PLAIN)
    ensures StateOf(S.AsRig(), q) == StateOf(S.AsRig(), m).(pc := pc + 8, win := Reg(PLAIN, 0x28))
  {
    hide Step, Steps, InSram, Rest, CountsOf;
    FetchingOk(S, m, 0, pc, b);
    var q1 := FirstWord(S, m, pc, b);
    FetchingOk(S, q1, 1, pc, b);
    var q2 := HandEmpty(S, q1, pc, b);
    BetweenOk(S, q2, CLEANUP, pc + 8);
    TwoSteps(m, q1, q2);
    q := CleanupStep(S, q2, pc + 8);
    OneMore(m, 2, q2, q);
    CountsByReload(S.AsRig(), m.dma.ch, q2.dma.ch);
    FetchingOk(S, q, 0, pc + 8, PLAIN);
  }

  lemma BetweenOk(S: Setup, m: Machine, w: int, pc: int)
    requires Between(S, m, w, pc)
    ensures m.Ok() && m.dma.ch[FETCH].readAddr == pc
  {
  }

  /** A record whose WRITE_ADDR is zero halts the machine, and so does any record on the plain or
      sniff bank while that bank's count is zero: its chain finds fetch still busy. */
  lemma RecordHalts(S: Setup, m: Machine, pc: int, b: int) returns (q: Machine)
    requires Fetching(S, m, 0, pc, b) && InSram(S.v, pc, 8) && pc % 4 == 0
    requires Peek(m.mem, pc / 4 + 1) == 0 || (m.dma.ch[b].reload == 0 && !AutoReturn(b))
    ensures q.Ok() && Steps(m, 2) == Done(q) && q.mem == m.mem && q.dma.sdata == m.dma.sdata && q.dma.sctl == m.dma.sctl
    ensures q.dma.Ready() == {} && forall i :: 0 <= i < SLOTS ==> !q.dma.ch[i].busy
  {
    hide Step, Steps, InSram, Rest, Decode;
    FetchingOk(S, m, 0, pc, b);
    var q1 := FirstWord(S, m, pc, b);
    FetchingOk(S, q1, 1, pc, b);
    if Peek(m.mem, pc / 4 + 1) == 0 { q := HandNull(S, q1, pc, b); } else { q := HandEmpty(S, q1, pc, b); }
    TwoSteps(m, q1, q);
  }

  // ----- programs -----

  /** The next record is legal and its bank's chain can restart fetch. */
  ghost predicate LegalNext(S: Setup, s: State, r: Compact.Record) {
    && r.Record? && Legal(S, s, s.pc, Compact.BankOf(s.win), r.src, r.dst)
    && (Peek(s.cnt, Compact.BankOf(s.win)) > 0 || AutoReturn(Compact.BankOf(s.win)))
  }

  ghost function Next1(S: Setup, s: State, r: Compact.Record): State
    requires LegalNext(S, s, r)
  {
    Effect(s, s.pc, Compact.BankOf(s.win), r.src, r.dst)
  }

  /** rs is the run of records a sequential compact machine meets from s, each where %pc then
      points. */
  ghost predicate LegalRun(S: Setup, s: State, rs: seq<Compact.Record>)
    decreases |rs|
  {
    rs == [] || (LegalNext(S, s, rs[0]) && LegalRun(S, Next1(S, s, rs[0]), rs[1..]))
  }

  ghost function RunOf(S: Setup, s: State, rs: seq<Compact.Record>): State
    requires LegalRun(S, s, rs)
    decreases |rs|
  {
    if rs == [] then s else RunOf(S, Next1(S, s, rs[0]), rs[1..])
  }

  lemma WindowIs(S: Setup, m: Machine, pc: int, b: int)
    requires Fetching(S, m, 0, pc, b)
    ensures m.Ok() && 0 <= b < BANKS && Compact.BankOf(StateOf(S.AsRig(), m).win) == b
  {
    FetchingOk(S, m, 0, pc, b);
    BankModes(b);
    PcIs(S, m);
    hide Fetching, StateOf;
  }

  /** The channel machine refines the sequential compact machine over every run. */
  lemma {:induction false} ProgramRuns(S: Setup, m: Machine, b: int, rs: seq<Compact.Record>)
    returns (q: Machine, b': int, k: nat)
    requires m.Ok() && Fetching(S, m, 0, StateOf(S.AsRig(), m).pc, b) && LegalRun(S, StateOf(S.AsRig(), m), rs)
    ensures q.Ok() && Steps(m, k) == Done(q) && Fetching(S, q, 0, StateOf(S.AsRig(), q).pc, b')
    ensures StateOf(S.AsRig(), q) == RunOf(S, StateOf(S.AsRig(), m), rs)
    decreases |rs|
  {
    hide Fetching, Legal, Steps, Step, StateOf, Effect;
    if rs == [] {
      q, b', k := m, b, 0;
      NoSteps(m);
    } else {
      WindowIs(S, m, StateOf(S.AsRig(), m).pc, b);
      CountIs(S, m, b);
      var n := m.dma.ch[b].reload;
      var m1, b1 := RecordRuns(S, m, StateOf(S.AsRig(), m).pc, b, rs[0].src, rs[0].dst);
      var k1;
      q, b', k1 := ProgramRuns(S, m1, b1, rs[1..]);
      k := Cycles(b, n) + k1;
      StepsAdd(m, Cycles(b, n), k1);
    }
  }

  // ----- straight-line code -----

  /** A move that neither reads nor writes %pc does not care where %pc is. */
  lemma MovePc(s: State, src: Loc, dst: Loc, md: Core.Mode, p: Word)
    requires md.Ok() && Aligned(src, md.size) && Aligned(dst, md.size) && src != Pc
    ensures dst != Pc ==> Move(s.(pc := p), src, dst, md) == Move(s, src, dst, md).(pc := p)
    ensures dst == Pc ==> Move(s.(pc := p), src, dst, md) == Move(s, src, dst, md)
    ensures dst != Pc ==> Move(s, src, dst, md).pc == s.pc
  {
    hide Words.Field, PutField, Words.Bswap, XorW, OrW, AndNotW, Rev32;
  }

  lemma {:induction false} BurstPc(s: State, src: Loc, dst: Loc, md: Core.Mode, k: nat, p: Word)
    requires md.Ok() && Aligned(src, md.size) && Aligned(dst, md.size) && src != Pc
    ensures dst != Pc ==> Burst(s.(pc := p), src, dst, md, k) == Burst(s, src, dst, md, k).(pc := p)
    ensures dst == Pc && k > 0 ==> Burst(s.(pc := p), src, dst, md, k) == Burst(s, src, dst, md, k)
    ensures dst != Pc ==> Burst(s, src, dst, md, k).pc == s.pc
    decreases k
  {
    hide Move;
    if k > 0 {
      MovePc(s, src, dst, md, p);
      BurstPc(Move(s, src, dst, md), Next(src, md.incrR, md.size), Next(dst, md.incrW, md.size), md, k - 1, p);
    }
  }

  /** Only the last record may write %pc, and none reads it. */
  predicate Straight(rs: seq<Compact.Record>) {
    forall i :: 0 <= i < |rs| ==> rs[i].Record? && rs[i].src != Pc && (i + 1 < |rs| ==> rs[i].dst != Pc)
  }

  /** Straight-line code in memory runs as the record list does: on a fall-through %pc has moved
      past the code, and after a jump the states are equal. */
  lemma {:induction false} StraightLine(S: Setup, s: State, t: State, rs: seq<Compact.Record>)
    requires LegalRun(S, s, rs) && Straight(rs) && t == s.(pc := t.pc)
    ensures match Compact.RunRecords(t, rs)
            case Fall(u) => RunOf(S, s, rs) == u.(pc := RunOf(S, s, rs).pc) && RunOf(S, s, rs).pc == s.pc + 8 * |rs|
            case Jump(u) => RunOf(S, s, rs) == u
            case Stop(_) => false
    decreases |rs|
  {
    if rs == [] {
    } else {
      var r, b := rs[0], Compact.BankOf(s.win);
      EffectIsRecord(S, s, s.pc, b, r.src, r.dst);
      BankModes(b);
      var md := Compact.BankMode(b);
      BurstPc(t, r.src, r.dst, md, Peek(t.cnt, b), s.pc + 8);
      assert t.(pc := s.pc + 8) == s.(pc := s.pc + 8);
      NoBurst(t, r.src, r.dst, md); NoBurst(t.(pc := s.pc + 8), r.src, r.dst, md);
      hide Burst, Legal, Effect;
      var s1, t1 := Next1(S, s, r), Compact.ExecRecord(t, r);
      if r.dst == Pc && Peek(t.cnt, b) > 0 {
        assert |rs| == 1;
        assert RunOf(S, s1, rs[1..]) == s1;
      } else {
        StraightLine(S, s1, t1, rs[1..]);
      }
    }
  }
}
