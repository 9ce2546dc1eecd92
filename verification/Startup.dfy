/** Starting the compact machine: the image's init writes configure the sniffer, the banks and
    cleanup (host/dmaasm/emit.go), and the set-up arms fetch (host/emu/fetchexec.go). */
module Startup {
  import opened Words
  import opened Core
  import opened Planner
  import opened Chip
  import opened Control
  import opened Wiring
  import opened Worker
  import opened Sequencer
  import opened Banks
  import Classic

  // ----- the writes -----

  /** Enabled, watching the sniff bank, summing. */
  const SNIFFING: Word := 1 + 2 * SNIFF + 0x20 * 15

  function SniffWrites(S: Setup): seq<(int, Word)> {
    [(DMA + S.v.SniffCtrlOff(), SNIFFING), (DMA + S.v.SniffDataOff(), 0)]
  }

  function BankWrite(S: Setup, b: int): seq<(int, Word)>
    requires 0 <= b < BANKS
  {
    [(Reg(b, 0x10), Encode(S.v, BankFields(b))), (Reg(b, 0x24), 1)]
  }

  function BankWrites(S: Setup, n: nat): seq<(int, Word)>
    requires n <= BANKS
  {
    if n == 0 then [] else BankWrites(S, n - 1) + BankWrite(S, n - 1)
  }

  function CleanupWrites(S: Setup): seq<(int, Word)>
    requires S.Ok()
  {
    [(Reg(CLEANUP, 0x14), S.cell), (Reg(CLEANUP, 0x18), Reg(FETCH, 0x2C)), (Reg(CLEANUP, 0x24), 1),
     (Reg(CLEANUP, 0x10), Encode(S.v, CleanupFields()))]
  }

  /** What the image writes before the machine is started. */
  function InitWrites(S: Setup): seq<(int, Word)>
    requires S.Ok()
  {
    SniffWrites(S) + BankWrites(S, BANKS) + CleanupWrites(S)
  }

  function FetchWrites(S: Setup, entry: Word): seq<(int, Word)> {
    [(Reg(FETCH, 0x00), entry), (Reg(FETCH, 0x04), Reg(PLAIN, 0x28)), (Reg(FETCH, 0x08), 2),
     (Reg(FETCH, 0x0C), Encode(S.v, FetchFields()))]
  }

  /** The compact set-up refuses a misaligned entry. */
  function SetupFetchExec(S: Setup, m: Machine, entry: Word): Result<Machine>
    requires m.Ok()
  {
    if entry % 8 != 0 then Fault else Classic.Pokes(m, FetchWrites(S, entry))
  }

  // ----- writes in sequence -----

  lemma {:induction false} PokesSplit(m: Machine, x: seq<(int, Word)>, q: Machine, y: seq<(int, Word)>)
    requires m.Ok() && q.Ok() && Classic.Pokes(m, x) == Done(q)
    ensures Classic.Pokes(m, x + y) == Classic.Pokes(q, y)
    decreases |x|
  {
    hide Classic.Poke;
    if x == [] {
      assert x + y == y;
    } else {
      var m1 := Classic.Poke(m, x[0].0, x[0].1).value;
      assert (x + y)[1..] == x[1..] + y;
      PokesSplit(m1, x[1..], q, y);
    }
  }

  lemma {:induction false} TwoPokes(m: Machine, c0: (int, Word), c1: (int, Word), q1: Machine, q2: Machine)
    requires m.Ok() && q1.Ok() && q2.Ok() && Classic.Poke(m, c0.0, c0.1) == Done(q1)
    requires Classic.Poke(q1, c1.0, c1.1) == Done(q2)
    ensures Classic.Pokes(m, [c0, c1]) == Done(q2)
  {
    hide Classic.Poke;
    Classic.PokesFront(m, [c0, c1], q1);
    assert [c0, c1][1..] == [c1];
    Classic.PokesFront(q1, [c1], q2);
    assert [c1][1..] == [];
    Classic.NoPokes(q2);
  }

  // ----- the sniffer -----

  lemma {:induction false} PokeSniff(m: Machine, x: Word)
    requires m.Ok()
    ensures Classic.Poke(m, DMA + m.dma.v.SniffCtrlOff(), x) == Done(m.(dma := m.dma.(sctl := x)))
    ensures Classic.Poke(m, DMA + m.dma.v.SniffDataOff(), x) == Done(m.(dma := m.dma.(sdata := x)))
  {
    hide RegRead, RegWrite, BusWrite, BusRead;
    SniffReg(m.dma, x, x != 0);
    RegBus(m, 0, m.dma.v.SniffCtrlOff(), x, 4);
    RegBus(m, 0, m.dma.v.SniffDataOff(), x, 4);
  }

  lemma {:induction false} SniffPokes(S: Setup, m: Machine)
    requires m.Ok() && m.dma.v == S.v
    ensures Classic.Pokes(m, SniffWrites(S)) == Done(m.(dma := m.dma.(sctl := SNIFFING, sdata := 0)))
    ensures SniffOk(S.AsRig(), SNIFFING)
  {
    hide Classic.Poke, Classic.Pokes;
    PokeSniff(m, SNIFFING);
    var q1 := m.(dma := m.dma.(sctl := SNIFFING));
    PokeSniff(q1, 0);
    var q2 := m.(dma := m.dma.(sctl := SNIFFING, sdata := 0));
    TwoPokes(m, SniffWrites(S)[0], SniffWrites(S)[1], q1, q2);
  }

  // ----- the banks -----

  predicate Idle(m: Machine)
    requires m.Ok()
  {
    forall i :: 0 <= i < SLOTS ==> !m.dma.ch[i].busy && !m.dma.ch[i].wedged
  }

  /** The first n banks are configured, at one transfer each; nothing else has changed. */
  ghost predicate Banked(S: Setup, m: Machine, q: Machine, n: int) {
    && m.Ok() && q.Ok() && Idle(q) && q == m.(dma := m.dma.(ch := q.dma.ch))
    && (forall b :: 0 <= b < n && b < BANKS ==> BankConfigured(S, b, q.dma.ch[b]) && q.dma.ch[b].reload == 1)
  }

  lemma {:induction false} BankPoke(S: Setup, m: Machine, q: Machine, b: int) returns (r: Machine)
    requires 0 <= b < BANKS && Banked(S, m, q, b) && m.dma.v == S.v
    ensures Banked(S, m, r, b + 1) && Classic.Pokes(q, BankWrite(S, b)) == Done(r)
  {
    hide Encode, Decode, Flag, Classic.Poke, Classic.Pokes, BankFields, WriteField;
    var q1 := Classic.PokeField(q, b, 0x10, Encode(S.v, BankFields(b)));
    r := Classic.PokeField(q1, b, 0x24, 1);
    BankWritten(S, q.dma.ch[b], b);
    TwoPokes(q, BankWrite(S, b)[0], BankWrite(S, b)[1], q1, r);
  }

  lemma BankWritten(S: Setup, c: Chan, b: int)
    requires 0 <= b < BANKS
    ensures var c1 := WriteField(c, S.v, FieldAt(0x10), Encode(S.v, BankFields(b)));
            c1 == c.(ctrl := Encode(S.v, BankFields(b))) && WriteField(c1, S.v, FieldAt(0x24), 1) == c1.(reload := 1)
  {
    DecodeEncode(S.v, BankFields(b));
    hide Encode, Decode, Flag, BankFields;
  }

  lemma {:induction false} BankPokes(S: Setup, m: Machine, n: nat) returns (q: Machine)
    requires m.Ok() && Idle(m) && m.dma.v == S.v && n <= BANKS
    ensures Banked(S, m, q, n) && Classic.Pokes(m, BankWrites(S, n)) == Done(q)
    decreases n
  {
    hide Classic.Poke, BankWrite;
    if n == 0 {
      q := m;
    } else {
      hide Classic.Pokes;
      var q1 := BankPokes(S, m, n - 1);
      q := BankPoke(S, m, q1, n - 1);
      PokesSplit(m, BankWrites(S, n - 1), q1, BankWrite(S, n - 1));
    }
  }

  // ----- cleanup and fetch -----

  lemma {:induction false} CleanupPokes(S: Setup, m: Machine) returns (q: Machine)
    requires S.Ok() && m.Ok() && m.dma.v == S.v && !m.dma.ch[CLEANUP].wedged
    ensures q.Ok() && q == m.(dma := m.dma.(ch := m.dma.ch[CLEANUP := q.dma.ch[CLEANUP]]))
    ensures CleanupConfigured(S, q.dma.ch[CLEANUP]) && q.dma.ch[CLEANUP].busy == m.dma.ch[CLEANUP].busy
    ensures Classic.Pokes(m, CleanupWrites(S)) == Done(q)
  {
    hide Encode, Decode, Flag, Classic.Poke, Classic.Pokes, WriteField;
    var ws := CleanupWrites(S);
    var q1 := Classic.PokeField(m, CLEANUP, 0x14, S.cell);
    var q2 := Classic.PokeField(q1, CLEANUP, 0x18, Reg(FETCH, 0x2C));
    var q3 := Classic.PokeField(q2, CLEANUP, 0x24, 1);
    q := Classic.PokeField(q3, CLEANUP, 0x10, Encode(S.v, CleanupFields()));
    CleanupWritten(S, m.dma.ch[CLEANUP]);
    Classic.FourPokes(m, ws[0], ws[1], ws[2], ws[3], [], q1, q2, q3, q);
    assert [ws[0], ws[1], ws[2], ws[3]] + [] == ws;
    Classic.NoPokes(q);
  }

  lemma CleanupWritten(S: Setup, c: Chan)
    requires S.Ok() && !c.wedged
    ensures var c1 := WriteField(c, S.v, FieldAt(0x14), S.cell);
            var c2 := WriteField(c1, S.v, FieldAt(0x18), Reg(FETCH, 0x2C));
            var c3 := WriteField(c2, S.v, FieldAt(0x24), 1);
            var c4 := WriteField(c3, S.v, FieldAt(0x10), Encode(S.v, CleanupFields()));
            CleanupConfigured(S, c4) && c4.busy == c.busy
  {
    DecodeEncode(S.v, CleanupFields());
    hide Encode, Decode, Flag;
  }

  lemma {:induction false} FetchPokes(S: Setup, m: Machine, entry: Word) returns (q: Machine)
    requires m.Ok() && m.dma.v == S.v && !m.dma.ch[FETCH].wedged && !m.dma.ch[FETCH].busy
    ensures q.Ok() && q == m.(dma := m.dma.(ch := m.dma.ch[FETCH := q.dma.ch[FETCH]]))
    ensures var f := q.dma.ch[FETCH];
            && FetchConfigured(S, f) && f.busy && f.mode == 0 && f.remaining == 2
            && f.readAddr == entry && f.writeAddr == Reg(PLAIN, 0x28)
    ensures Classic.Pokes(m, FetchWrites(S, entry)) == Done(q)
  {
    hide Encode, Decode, Flag, Classic.Poke, Classic.Pokes;
    var ws := FetchWrites(S, entry);
    Classic.PokeReg(m, FETCH, 0x00, entry);
    var q1 := Classic.Poke(m, ws[0].0, ws[0].1).value;
    Classic.PokeReg(q1, FETCH, 0x04, Reg(PLAIN, 0x28));
    var q2 := Classic.Poke(q1, ws[1].0, ws[1].1).value;
    Classic.PokeReg(q2, FETCH, 0x08, 2);
    var q3 := Classic.Poke(q2, ws[2].0, ws[2].1).value;
    Classic.PokeStart(q3, FETCH, FetchFields());
    q := Classic.Poke(q3, ws[3].0, ws[3].1).value;
    Classic.FourPokes(m, ws[0], ws[1], ws[2], ws[3], [], q1, q2, q3, q);
    assert [ws[0], ws[1], ws[2], ws[3]] + [] == ws;
    Classic.NoPokes(q);
  }

  // ----- starting -----

  /** The machine the image's init writes leave: configured, idle, and its accumulator clear. */
  ghost predicate Configured(S: Setup, m: Machine, q: Machine) {
    && m.Ok() && q.Ok() && q.mem == m.mem && q.dma.v == m.dma.v && Idle(q) && q.dma.sctl == SNIFFING && q.dma.sdata == 0
    && CleanupConfigured(S, q.dma.ch[CLEANUP])
    && forall b :: 0 <= b < BANKS ==> BankConfigured(S, b, q.dma.ch[b]) && q.dma.ch[b].reload == 1
  }

  lemma {:induction false} InitConfigures(S: Setup, m: Machine) returns (q: Machine)
    requires S.Ok() && m.Ok() && m.dma.v == S.v && Idle(m)
    ensures Classic.Pokes(m, InitWrites(S)) == Done(q) && Configured(S, m, q)
  {
    hide Classic.Pokes, BankWrites, CleanupWrites, SniffWrites, BankConfigured;
    SniffPokes(S, m);
    var q1 := m.(dma := m.dma.(sctl := SNIFFING, sdata := 0));
    var q2 := BankPokes(S, q1, BANKS);
    q := CleanupPokes(S, q2);
    PokesSplit(m, SniffWrites(S), q1, BankWrites(S, BANKS));
    PokesSplit(m, SniffWrites(S) + BankWrites(S, BANKS), q2, CleanupWrites(S));
  }

  /** From an idle machine with the image in memory, the init writes and the set-up leave the
      machine fetching the record at the entry on the plain bank, every bank at one transfer and the
      accumulator zero; the set-up is refused exactly for a misaligned entry. */
  lemma {:induction false} CompactStarts(S: Setup, m: Machine, entry: Word) returns (q: Machine)
    requires S.Ok() && m.Ok() && m.dma.v == S.v && Idle(m) && Peek(m.mem, S.cell / 4) == Reg(PLAIN, 0x28)
    ensures q.Ok() && Classic.Pokes(m, InitWrites(S)) == Done(q) && q.mem == m.mem
    ensures SetupFetchExec(S, q, entry).Done? <==> entry % 8 == 0
    ensures entry % 8 == 0 ==>
              var r := SetupFetchExec(S, q, entry).value;
              && Fetching(S, r, 0, entry, PLAIN)
              && StateOf(S.AsRig(), r)
                 == State(m.mem, 0, SNIFFING, entry, Reg(PLAIN, 0x28),
                     map[0 := 1, 1 := 1, 2 := 1, 3 := 1, 4 := 1, 5 := 1, 6 := 1])
  {
    q := InitConfigures(S, m);
    if entry % 8 == 0 {
      var r := FetchPokes(S, q, entry);
      SniffPokes(S, m);
      hide Encode, Classic.Pokes, SniffOk, BankFields;
      assert AtWindow(r, PLAIN) == r by { assert r.dma.ch[FETCH := r.dma.ch[FETCH]] == r.dma.ch; }
      assert Base(S.AsRig(), r) by {
        assert IsWindow(r.dma.ch[FETCH].writeAddr);
      }
      assert Rest(S, r);
    }
  }
}
