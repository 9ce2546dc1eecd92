/** Labelled programs with jumps on the channel machine: the compact machine, started by its
    set-up, follows the classic blocks of the program instruction by instruction. */
module Labelled {
  import opened Words
  import opened Core
  import opened Planner
  import opened Compact
  import opened Refinement
  import Chip
  import Wiring
  import Banks
  import Startup
  import Classic
  import Control
  import Worker
  import Sequencer

  /** Instructions by the address of their first record. */
  type Program = map<int, seq<Block>>

  ghost predicate InstrAt(env: Env, prog: Program, at: int) {
    env.Ok() && at in prog && AllOk(prog[at]) && LitsFor(env, prog[at])
  }

  ghost function RecordsAt(env: Env, prog: Program, at: int): seq<Record>
    requires InstrAt(env, prog, at)
  {
    InstrRecords(env, prog[at])
  }

  /** The instruction at %pc obeys the mode-domain rules and does not halt. */
  ghost predicate Runnable(env: Env, prog: Program, f: Flags, c: State) {
    && InstrAt(env, prog, c.pc) && Obeys(env, CANON, f, c, prog[c.pc]) && !RunBlocks(c, prog[c.pc]).Stop?
    && 0 <= c.pc + 8 * |RecordsAt(env, prog, c.pc)| < M32
  }

  /** One instruction as blocks: a jump goes where it says, anything else on behind the records. */
  ghost function StepBlocks(env: Env, prog: Program, f: Flags, c: State): State
    requires Runnable(env, prog, f, c)
  {
    match RunBlocks(c, prog[c.pc])
    case Fall(c') => c'.(pc := c.pc + 8 * |RecordsAt(env, prog, c.pc)|)
    case Jump(c') => c'
    case Stop(c') => c'
  }

  /** The first n records of the instruction are what the machine meets: they are in memory where
      %pc points, ask for moves a program may make, and run to a jump or to the end. */
  ghost predicate Meets(S: Banks.Setup, s: State, rs: seq<Record>, n: nat) {
    && n <= |rs| && Banks.LegalRun(S, s, rs[..n]) && Banks.Straight(rs[..n])
        && (n == |rs| || RunRecords(s, rs[..n]).Jump?)
  }

  ghost function StepRecords(S: Banks.Setup, s: State, rs: seq<Record>, n: nat): State
    requires Meets(S, s, rs, n)
  {
    Banks.RunOf(S, s, rs[..n])
  }

  lemma {:induction false} PcAside(env: Env, f: Flags, c: State, b: State, p: Word)
    requires Rel(env, CANON, f, c, b)
    ensures Rel(env, CANON, f, c.(pc := p), b.(pc := p))
  {
  }

  /** A whole instruction falls through past its end, or jumps. */
  lemma {:induction false} RecordsRun(S: Banks.Setup, s: State, rs: seq<Record>, n: nat)
    requires Meets(S, s, rs, n)
    ensures match RunRecords(s, rs)
            case Fall(u) =>
                StepRecords(S, s, rs, n) == u.(pc := StepRecords(S, s, rs, n).pc)
                && StepRecords(S, s, rs, n).pc == s.pc + 8 * |rs|
            case Jump(u) => StepRecords(S, s, rs, n) == u
            case Stop(_) => false
  {
    hide Banks.LegalRun, RunRecords, Banks.Straight;
    Banks.StraightLine(S, s, s, rs[..n]);
    if n == |rs| {
      assert rs[..n] == rs;
    } else {
      RunRecordsSplit(s, rs[..n], rs[n..]);
      assert rs == rs[..n] + rs[n..];
    }
  }

  /** One instruction: the records end in a state related to that of the blocks. */
  lemma {:induction false} InstrFollows(S: Banks.Setup, env: Env, prog: Program, f: Flags, c: State, s: State, n: nat)
    requires Rel(env, CANON, f, c, s) && Runnable(env, prog, f, c) && Meets(S, s, RecordsAt(env, prog, c.pc), n)
    ensures Rel(env, CANON, InstrFlags(env, f, c, prog[c.pc]), StepBlocks(env, prog, f, c),
              StepRecords(S, s, RecordsAt(env, prog, c.pc), n))
  {
    var bs, rs := prog[c.pc], RecordsAt(env, prog, c.pc);
    assert s.pc == c.pc;
    hide Meets, StepRecords, Rel, RunBlocks, RunRecords, InstrRecords, InstrFlags, Obeys;
    InstrRefines(env, f, c, s, bs);
    RecordsRun(S, s, rs, n);
    var g := InstrFlags(env, f, c, bs);
    match RunBlocks(c, bs)
    case Fall(c') => PcAside(env, g, c', RunRecords(s, rs).s, c.pc + 8 * |rs|);
    case Jump(c') =>
    case Stop(_) =>
  }

  /** k instructions from related states, each met as above. */
  ghost predicate Follows(S: Banks.Setup, env: Env, prog: Program, f: Flags, c: State, s: State, ns: seq<nat>)
    decreases |ns|
  {
    ns == [] ||
    (Runnable(env, prog, f, c) && Meets(S, s, RecordsAt(env, prog, c.pc), ns[0]) &&
     Follows(S, env, prog, InstrFlags(env, f, c, prog[c.pc]), StepBlocks(env, prog, f, c),
             StepRecords(S, s, RecordsAt(env, prog, c.pc), ns[0]), ns[1..]))
  }

  /** Where the blocks are after those instructions, and what still agrees. */
  ghost function BlocksAfter(S: Banks.Setup, env: Env, prog: Program, f: Flags, c: State, s: State,
                             ns: seq<nat>): (Flags, State)
    requires Follows(S, env, prog, f, c, s, ns)
    decreases |ns|
  {
    if ns == [] then (f, c)
    else BlocksAfter(S, env, prog, InstrFlags(env, f, c, prog[c.pc]), StepBlocks(env, prog, f, c),
                     StepRecords(S, s, RecordsAt(env, prog, c.pc), ns[0]), ns[1..])
  }

  lemma CanonWindow(S: Banks.Setup, env: Env, f: Flags, c: State, m: Chip.Machine, pc: int, b: int)
    requires Banks.Fetching(S, m, 0, pc, b) && Rel(env, CANON, f, c, Wiring.StateOf(S.AsRig(), m))
    ensures b == PLAIN
  {
    Banks.FetchingOk(S, m, 0, pc, b);
    Banks.PcIs(S, m);
    Banks.BankModes(b);
    hide Banks.Fetching, Sim, CountsOk;
  }

  /** The channel machine at an instruction boundary, with the program's state related to c. */
  ghost predicate Boundary(S: Banks.Setup, env: Env, f: Flags, c: State, m: Chip.Machine) {
    m.Ok() && Banks.Fetching(S, m, 0, c.pc, PLAIN) && Rel(env, CANON, f, c, Wiring.StateOf(S.AsRig(), m))
  }

  lemma {:induction false} StepChannel(S: Banks.Setup, env: Env, prog: Program, f: Flags, c: State, m: Chip.Machine,
                                       n: nat) returns (q: Chip.Machine, k: nat)
    requires Boundary(S, env, f, c, m) && Runnable(env, prog, f, c)
    requires Meets(S, Wiring.StateOf(S.AsRig(), m), RecordsAt(env, prog, c.pc), n)
    ensures Chip.Steps(m, k) == Chip.Done(q)
    ensures Boundary(S, env, InstrFlags(env, f, c, prog[c.pc]), StepBlocks(env, prog, f, c), q)
    ensures Wiring.StateOf(S.AsRig(), q) == StepRecords(S, Wiring.StateOf(S.AsRig(), m), RecordsAt(env, prog, c.pc), n)
  {
    var s, rs := Wiring.StateOf(S.AsRig(), m), RecordsAt(env, prog, c.pc);
    assert s.pc == c.pc;
    InstrFollows(S, env, prog, f, c, s, n);
    hide Banks.Fetching, Chip.Steps, Wiring.StateOf, Banks.LegalRun, Banks.Straight, RunRecords;
    var b';
    q, b', k := Banks.ProgramRuns(S, m, PLAIN, rs[..n]);
    var g, c' := InstrFlags(env, f, c, prog[c.pc]), StepBlocks(env, prog, f, c);
    CanonWindow(S, env, g, c', q, Wiring.StateOf(S.AsRig(), q).pc, b');
  }

  /** Every run of a labelled program: however many instructions and jumps, the compact channel
      machine passes through a fetch where memory and %pc are those of the classic blocks, up to the
      dead accumulator, at and null. */
  lemma {:induction false} ProgramFollows(S: Banks.Setup, env: Env, prog: Program, f: Flags, c: State, m: Chip.Machine,
                                          ns: seq<nat>)
    returns (q: Chip.Machine, k: nat)
    requires Boundary(S, env, f, c, m) && Follows(S, env, prog, f, c, Wiring.StateOf(S.AsRig(), m), ns)
    ensures Chip.Steps(m, k) == Chip.Done(q)
    ensures var r := BlocksAfter(S, env, prog, f, c, Wiring.StateOf(S.AsRig(), m), ns); Boundary(S, env, r.0, r.1, q)
    decreases |ns|
  {
    hide *;
    BoundaryOk(S, env, f, c, m);
    if ns == [] {
      q, k := m, 0;
      Zero(m);
      FollowsNone(S, env, prog, f, c, Wiring.StateOf(S.AsRig(), m));
    } else {
      FollowsOn(S, env, prog, f, c, Wiring.StateOf(S.AsRig(), m), ns);
      var g, c' := InstrFlags(env, f, c, prog[c.pc]), StepBlocks(env, prog, f, c);
      var m1, k1 := StepChannel(S, env, prog, f, c, m, ns[0]);
      var k2;
      q, k2 := ProgramFollows(S, env, prog, g, c', m1, ns[1..]);
      k := k1 + k2;
      Chip.StepsAdd(m, k1, k2);
    }
  }

  // ----- one layout -----

  /** The records of an instruction are in memory from at on. */
  ghost predicate LaidAt(S: Banks.Setup, mem: map<int, Word>, at: int, rs: seq<Record>) {
    S.Ok() && at % 4 == 0 && forall k :: 0 <= k < |rs| ==> RecordIn(S, mem, at + 8 * k, rs[k])
  }

  ghost predicate RecordIn(S: Banks.Setup, mem: map<int, Word>, x: int, r: Record)
    requires S.Ok()
  {
    r.Record? ==>
      && Chip.InSram(S.v, x, 8) && Wiring.Addr(S.AsRig(), r.dst) != 0
      && Peek(mem, x / 4) == Wiring.Addr(S.AsRig(), r.src) && Peek(mem, x / 4 + 1) == Wiring.Addr(S.AsRig(), r.dst)
  }

  /** The words the records from at on take. */
  ghost predicate Covers(text: iset<int>, at: int, rs: seq<Record>) {
    forall k :: 0 <= k < |rs| ==> (at + 8 * k) / 4 in text && (at + 8 * k) / 4 + 1 in text
  }

  /** The whole program is in memory, in words of text. */
  ghost predicate Placed(S: Banks.Setup, env: Env, prog: Program, text: iset<int>, mem: map<int, Word>) {
    forall at :: at in prog && InstrAt(env, prog, at) ==>
                   LaidAt(S, mem, at, RecordsAt(env, prog, at)) && Covers(text, at, RecordsAt(env, prog, at))
  }

  /** The moves a record asks for are ones a program may make, wherever the record comes from. */
  ghost predicate Asked(S: Banks.Setup, s: State, r: Record) {
    var b := BankOf(s.win);
    && r.Record? && S.Ok() && 0 <= b < BANKS && s.win == Wiring.Reg(b, 0x28) && 0 <= s.pc < M32 - 8
    && Aligned(r.src, Chip.Size(Banks.BankFields(b).sizeLog)) && Aligned(r.dst, Chip.Size(Banks.BankFields(b).sizeLog))
    && Sequencer.MovesOk(S.AsRig(), b, s.(pc := s.pc + 8), r.src, r.dst, Banks.BankFields(b), Peek(s.cnt, b))
    && (Peek(s.cnt, b) > 0 || AutoReturn(b))
  }

  ghost function AskedEnd(S: Banks.Setup, s: State, r: Record): State
    requires Asked(S, s, r)
  {
    Banks.Effect(s, s.pc, BankOf(s.win), r.src, r.dst)
  }

  ghost predicate Spares(text: iset<int>, s: State, s': State) {
    forall i :: i in text ==> Peek(s'.mem, i) == Peek(s.mem, i)
  }

  /** Records that ask for such moves and write no word of text. */
  ghost predicate Behaves(S: Banks.Setup, text: iset<int>, s: State, rs: seq<Record>)
    decreases |rs|
  {
    rs == [] ||
    (Asked(S, s, rs[0]) && Spares(text, s, AskedEnd(S, s, rs[0])) && Behaves(S, text, AskedEnd(S, s, rs[0]), rs[1..]))
  }

  ghost function BehavesEnd(S: Banks.Setup, text: iset<int>, s: State, rs: seq<Record>): State
    requires Behaves(S, text, s, rs)
    decreases |rs|
  {
    if rs == [] then s else BehavesEnd(S, text, AskedEnd(S, s, rs[0]), rs[1..])
  }

  lemma {:induction false} AskedLegal(S: Banks.Setup, s: State, r: Record)
    requires Asked(S, s, r) && RecordIn(S, s.mem, s.pc, r) && s.pc % 4 == 0
    ensures Banks.LegalNext(S, s, r) && Banks.Next1(S, s, r) == AskedEnd(S, s, r)
  {
    hide Sequencer.MovesOk;
  }

  /** A record that does not write %pc leaves it behind the record. */
  lemma {:induction false} AskedPc(S: Banks.Setup, s: State, r: Record)
    requires Asked(S, s, r) && r.src != Pc && r.dst != Pc
    ensures AskedEnd(S, s, r).pc == s.pc + 8
  {
    var b := BankOf(s.win);
    hide Sequencer.MovesOk, Burst;
    Banks.BurstPc(s.(pc := s.pc + 8), r.src, r.dst, Worker.ModeOf(Banks.BankFields(b)), Peek(s.cnt, b), s.pc + 8);
  }

  /** Records laid out in memory that ask for legal moves and spare the text are met one by one. */
  lemma {:induction false} LaidMeets(S: Banks.Setup, text: iset<int>, s: State, rs: seq<Record>)
    requires LaidAt(S, s.mem, s.pc, rs) && Covers(text, s.pc, rs) && Behaves(S, text, s, rs) && Banks.Straight(rs)
    ensures Banks.LegalRun(S, s, rs) && Banks.RunOf(S, s, rs) == BehavesEnd(S, text, s, rs)
    decreases |rs|
  {
    if rs != [] {
      var s' := AskedEnd(S, s, rs[0]);
      assert RecordIn(S, s.mem, s.pc + 8 * 0, rs[0]);
      AskedLegal(S, s, rs[0]);
      if |rs| > 1 {
        AskedPc(S, s, rs[0]);
        hide Asked, AskedEnd, RecordIn, Banks.LegalNext, Banks.Next1;
        LaidOn(S, text, s, s', rs);
        LaidMeets(S, text, s', rs[1..]);
      }
    }
  }

  lemma {:induction false} LaidOn(S: Banks.Setup, text: iset<int>, s: State, s': State, rs: seq<Record>)
    requires LaidAt(S, s.mem, s.pc, rs) && Covers(text, s.pc, rs) && Spares(text, s, s') && s'.pc == s.pc + 8
    requires |rs| > 1 && Banks.Straight(rs)
    ensures LaidAt(S, s'.mem, s'.pc, rs[1..]) && Covers(text, s'.pc, rs[1..]) && Banks.Straight(rs[1..])
  {
    forall k | 0 <= k < |rs[1..]|
      ensures RecordIn(S, s'.mem, s'.pc + 8 * k, rs[1..][k])
      ensures (s'.pc + 8 * k) / 4 in text && (s'.pc + 8 * k) / 4 + 1 in text
    {
      var x := s.pc + 8 * (k + 1);
      assert s'.pc + 8 * k == x && rs[1..][k] == rs[k + 1];
      assert RecordIn(S, s.mem, x, rs[k + 1]) && x / 4 in text && x / 4 + 1 in text;
    }
  }

  /** The first n records of the instruction behave, and run to a jump or to the end. */
  ghost predicate Taken(S: Banks.Setup, text: iset<int>, s: State, rs: seq<Record>, n: nat) {
    && n <= |rs| && Behaves(S, text, s, rs[..n]) && Banks.Straight(rs[..n])
    && (n == |rs| || RunRecords(s, rs[..n]).Jump?)
  }

  /** Instructions from related states, each of them asking for legal moves and sparing the text. */
  ghost predicate Keeps(S: Banks.Setup, env: Env, prog: Program, text: iset<int>, f: Flags, c: State, s: State,
                        ns: seq<nat>)
    decreases |ns|
  {
    ns == [] ||
    (Runnable(env, prog, f, c) && s.pc == c.pc && Taken(S, text, s, RecordsAt(env, prog, c.pc), ns[0]) &&
     Keeps(S, env, prog, text, InstrFlags(env, f, c, prog[c.pc]), StepBlocks(env, prog, f, c),
           BehavesEnd(S, text, s, RecordsAt(env, prog, c.pc)[..ns[0]]), ns[1..]))
  }

  lemma {:induction false} LaidPrefix(S: Banks.Setup, text: iset<int>, mem: map<int, Word>, at: int, rs: seq<Record>,
                                      n: nat)
    requires LaidAt(S, mem, at, rs) && Covers(text, at, rs) && n <= |rs|
    ensures LaidAt(S, mem, at, rs[..n]) && Covers(text, at, rs[..n])
  {
    hide RecordIn;
    forall k | 0 <= k < n ensures RecordIn(S, mem, at + 8 * k, rs[..n][k]) { assert rs[..n][k] == rs[k]; }
  }

  lemma {:induction false} EndSpares(S: Banks.Setup, text: iset<int>, s: State, rs: seq<Record>)
    requires Behaves(S, text, s, rs)
    ensures Spares(text, s, BehavesEnd(S, text, s, rs))
    decreases |rs|
  {
    hide Asked, AskedEnd;
    if rs != [] { EndSpares(S, text, AskedEnd(S, s, rs[0]), rs[1..]); }
  }

  lemma {:induction false} PlacedStill(S: Banks.Setup, env: Env, prog: Program, text: iset<int>, s: State, s': State)
    requires Placed(S, env, prog, text, s.mem) && Spares(text, s, s')
    ensures Placed(S, env, prog, text, s'.mem)
  {
    hide InstrAt, RecordsAt;
    forall at | at in prog && InstrAt(env, prog, at) ensures LaidAt(S, s'.mem, at, RecordsAt(env, prog, at)) {
      var rs := RecordsAt(env, prog, at);
      assert LaidAt(S, s.mem, at, rs) && Covers(text, at, rs);
      forall k | 0 <= k < |rs| ensures RecordIn(S, s'.mem, at + 8 * k, rs[k]) {
        assert RecordIn(S, s.mem, at + 8 * k, rs[k]);
        assert (at + 8 * k) / 4 in text;
      }
    }
  }

  lemma {:induction false} TakenMeets(S: Banks.Setup, text: iset<int>, s: State, rs: seq<Record>, n: nat)
    requires LaidAt(S, s.mem, s.pc, rs) && Covers(text, s.pc, rs) && Taken(S, text, s, rs, n)
    ensures Meets(S, s, rs, n) && StepRecords(S, s, rs, n) == BehavesEnd(S, text, s, rs[..n])
    ensures Spares(text, s, BehavesEnd(S, text, s, rs[..n]))
  {
    hide LaidAt, Covers, Behaves, Banks.Straight, RunRecords, Banks.LegalRun, Banks.RunOf, BehavesEnd, Spares;
    LaidPrefix(S, text, s.mem, s.pc, rs, n);
    LaidMeets(S, text, s, rs[..n]);
    EndSpares(S, text, s, rs[..n]);
  }

  /** One layout is enough: what the machine meets is where it was put. */
  lemma {:induction false} KeepsFollows(S: Banks.Setup, env: Env, prog: Program, text: iset<int>, f: Flags, c: State,
                                        s: State, ns: seq<nat>)
    requires Placed(S, env, prog, text, s.mem) && Keeps(S, env, prog, text, f, c, s, ns)
    ensures Follows(S, env, prog, f, c, s, ns)
    decreases |ns|
  {
    if ns != [] {
      assert Runnable(env, prog, f, c) && InstrAt(env, prog, c.pc);
      var rs := RecordsAt(env, prog, c.pc);
      var s' := BehavesEnd(S, text, s, rs[..ns[0]]);
      assert LaidAt(S, s.mem, c.pc, rs) && Covers(text, c.pc, rs);
      hide Runnable, InstrAt, RecordsAt, StepBlocks, InstrFlags, Taken, LaidAt, Covers, Placed, Meets, StepRecords;
      TakenMeets(S, text, s, rs, ns[0]);
      PlacedStill(S, env, prog, text, s, s');
      KeepsFollows(S, env, prog, text, InstrFlags(env, f, c, prog[c.pc]), StepBlocks(env, prog, f, c), s', ns[1..]);
    }
  }

  /** A program put into memory once, whose instructions write no word of it: the channel machine
      passes through a fetch where memory and %pc are those of the classic blocks. */
  lemma {:induction false} LaidFollows(S: Banks.Setup, env: Env, prog: Program, text: iset<int>, f: Flags, c: State,
                                       m: Chip.Machine, ns: seq<nat>)
    returns (q: Chip.Machine, k: nat)
    requires Boundary(S, env, f, c, m) && Placed(S, env, prog, text, Wiring.StateOf(S.AsRig(), m).mem)
    requires Keeps(S, env, prog, text, f, c, Wiring.StateOf(S.AsRig(), m), ns)
    ensures Chip.Steps(m, k) == Chip.Done(q) && Follows(S, env, prog, f, c, Wiring.StateOf(S.AsRig(), m), ns)
    ensures var r := BlocksAfter(S, env, prog, f, c, Wiring.StateOf(S.AsRig(), m), ns); Boundary(S, env, r.0, r.1, q)
  {
    hide *;
    BoundaryOk(S, env, f, c, m);
    KeepsFollows(S, env, prog, text, f, c, Wiring.StateOf(S.AsRig(), m), ns);
    q, k := ProgramFollows(S, env, prog, f, c, m, ns);
  }

  lemma {:induction false} FollowsOn(S: Banks.Setup, env: Env, prog: Program, f: Flags, c: State, s: State,
                                     ns: seq<nat>)
    requires Follows(S, env, prog, f, c, s, ns) && ns != []
    ensures Runnable(env, prog, f, c) && InstrAt(env, prog, c.pc) && c.pc in prog && AllOk(prog[c.pc])
    ensures Meets(S, s, RecordsAt(env, prog, c.pc), ns[0])
    ensures var g, c', s' := InstrFlags(env, f, c, prog[c.pc]), StepBlocks(env, prog, f, c),
              StepRecords(S, s, RecordsAt(env, prog, c.pc), ns[0]);
            && Follows(S, env, prog, g, c', s', ns[1..])
            && BlocksAfter(S, env, prog, f, c, s, ns) == BlocksAfter(S, env, prog, g, c', s', ns[1..])
  {
    hide Meets, StepBlocks, StepRecords, RecordsAt, InstrFlags;
  }

  lemma FollowsNone(S: Banks.Setup, env: Env, prog: Program, f: Flags, c: State, s: State)
    requires Follows(S, env, prog, f, c, s, [])
    ensures BlocksAfter(S, env, prog, f, c, s, []) == (f, c)
  {
  }

  lemma BoundaryOk(S: Banks.Setup, env: Env, f: Flags, c: State, m: Chip.Machine)
    requires Boundary(S, env, f, c, m)
    ensures m.Ok()
  {
  }

  lemma Zero(m: Chip.Machine)
    requires m.Ok()
    ensures Chip.Steps(m, 0) == Chip.Done(m)
  {
  }

  /** The start: with the image and its literal pool in memory, the set-up leaves the machine at a
      boundary where everything agrees. */
  lemma {:induction false} StartsAtBoundary(S: Banks.Setup, env: Env, m: Chip.Machine, entry: Word)
    returns (q: Chip.Machine)
    requires S.Ok() && m.Ok() && m.dma.v == S.v && Startup.Idle(m) && Peek(m.mem, S.cell / 4) == Wiring.Reg(PLAIN, 0x28)
    requires env.Ok() && PoolOk(env, m.mem) && entry % 8 == 0
    ensures Classic.Pokes(m, Startup.InitWrites(S)).Done?
    ensures Startup.SetupFetchExec(S, Classic.Pokes(m, Startup.InitWrites(S)).value, entry) == Chip.Done(q)
    ensures var c := Wiring.StateOf(S.AsRig(), q);
              c.mem == m.mem && c.pc == entry && Boundary(S, env, Flags(true, true, {}), c, q)
  {
    hide Classic.Pokes, Startup.InitWrites, Startup.SetupFetchExec, Banks.Fetching, Wiring.StateOf;
    var r := Startup.CompactStarts(S, m, entry);
    q := Startup.SetupFetchExec(S, r, entry).value;
    Banks.FetchingOk(S, q, 0, entry, PLAIN);
    Banks.BankModes(PLAIN);
    var c := Wiring.StateOf(S.AsRig(), q);
    assert c.cnt == map[0 := 1, 1 := 1, 2 := 1, 3 := 1, 4 := 1, 5 := 1, 6 := 1];
    assert CountsOk(CANON, {}, c, c);
  }

  // ----- the classic machine -----

  /** The CTRL fields of a block, chained to fix. */
  function ExecFields(S: Classic.Setup, bank: int): Control.Fields {
    var m := BankMode(bank);
    Control.Fields(if m.size == 1 then 0 else if m.size == 2 then 1
        else 2, m.incrR, m.incrW, 0, m.bswap, m.sniff, S.fix)
  }

  function BlockOf(S: Classic.Setup, b: Block): Classic.Instr
    requires b.Block?
  {
    Classic.Instr(b.src, b.dst, ExecFields(S, b.bank), b.count)
  }

  /** Blocks that run one after the other: none halts, reads %pc or takes its count elsewhere, and
      only the last may jump. */
  predicate StraightBlocks(bs: seq<Block>) {
    forall i :: 0 <= i < |bs| ==> bs[i].Block? && !bs[i].dyn && bs[i].src != Pc && (i + 1 < |bs| ==> bs[i].dst != Pc)
  }

  function BlocksOf(S: Classic.Setup, bs: seq<Block>): (r: seq<Classic.Instr>)
    requires StraightBlocks(bs)
    ensures |r| == |bs| && forall i :: 0 <= i < |bs| ==> r[i] == BlockOf(S, bs[i])
  {
    seq(|bs|, i requires 0 <= i < |bs| => BlockOf(S, bs[i]))
  }

  lemma FieldsMode(S: Classic.Setup, bank: int)
    requires S.Ok()
    ensures Worker.ModeOf(ExecFields(S, bank)) == BankMode(bank)
  {
  }

  /** One block in memory: the block, wherever %pc is, with %pc past it unless it jumps. */
  lemma {:induction false} BlockLine(S: Classic.Setup, s: State, t: State, b: Block)
    requires b.Block? && b.Ok() && !b.dyn && b.src != Pc && Classic.LegalNext(S, s, BlockOf(S, b))
    requires t == s.(pc := t.pc)
    ensures var s1, t1 := Classic.Next1(S, s, BlockOf(S, b)), ExecBlock(t, b);
            if b.dst == Pc && b.count > 0 then s1 == t1 else t1 == s1.(pc := t1.pc) && s1.pc == s.pc + 16
  {
    FieldsMode(S, b.bank);
    var md := BankMode(b.bank);
    Banks.BurstPc(t, b.src, b.dst, md, b.count, s.pc + 16);
    assert t.(pc := s.pc + 16) == s.(pc := s.pc + 16);
    Banks.NoBurst(t, b.src, b.dst, md); Banks.NoBurst(t.(pc := s.pc + 16), b.src, b.dst, md);
    hide Burst, Classic.Legal;
  }

  /** Blocks in memory run as the block list does. */
  lemma {:induction false} BlocksLine(S: Classic.Setup, s: State, t: State, bs: seq<Block>)
    requires AllOk(bs) && StraightBlocks(bs) && Classic.LegalRun(S, s, BlocksOf(S, bs)) && t == s.(pc := t.pc)
    ensures var u := Classic.RunOf(S, s, BlocksOf(S, bs));
            match RunBlocks(t, bs)
            case Fall(v) => u == v.(pc := u.pc) && u.pc == s.pc + 16 * |bs|
            case Jump(v) => u == v
            case Stop(_) => false
    decreases |bs|
  {
    if bs != [] {
      var b := bs[0];
      assert BlocksOf(S, bs)[1..] == BlocksOf(S, bs[1..]);
      assert Classic.LegalNext(S, s, BlockOf(S, b));
      hide ExecBlock, Classic.LegalNext, Classic.Next1, BlockOf;
      BlockLine(S, s, t, b);
      var s1, t1 := Classic.Next1(S, s, BlockOf(S, b)), ExecBlock(t, b);
      if b.dst == Pc && b.count > 0 {
        assert |bs| == 1;
      } else {
        BlocksLine(S, s1, t1, bs[1..]);
      }
    }
  }

  /** The first n blocks of the instruction at %pc are what the machine meets. */
  ghost predicate MeetsBlocks(S: Classic.Setup, prog: Program, c: State, n: nat) {
    && c.pc in prog && AllOk(prog[c.pc]) && n <= |prog[c.pc]| && StraightBlocks(prog[c.pc][..n])
    && Classic.LegalRun(S, c, BlocksOf(S, prog[c.pc][..n]))
        && (n == |prog[c.pc]| || RunBlocks(c, prog[c.pc][..n]).Jump?)
  }

  /** One instruction of the labelled program, at 16 bytes a block. */
  ghost function StepClassic(S: Classic.Setup, prog: Program, c: State, n: nat): State
    requires MeetsBlocks(S, prog, c, n)
  {
    Classic.RunOf(S, c, BlocksOf(S, prog[c.pc][..n]))
  }

  lemma {:induction false} BlocksSplit(s: State, bs: seq<Block>, cs: seq<Block>)
    requires AllOk(bs) && AllOk(cs) && RunBlocks(s, bs).Jump?
    ensures AllOk(bs + cs) && RunBlocks(s, bs + cs) == RunBlocks(s, bs)
    decreases |bs|
  {
    hide ExecBlock;
    if bs != [] {
      assert (bs + cs)[1..] == bs[1..] + cs;
      if !(bs[0].dst == Pc && bs[0].Times(s) > 0) { BlocksSplit(ExecBlock(s, bs[0]), bs[1..], cs); }
    }
  }

  /** It is the instruction's blocks: a jump goes where they say, anything else on behind them. */
  lemma {:induction false} StepClassicIs(S: Classic.Setup, prog: Program, c: State, n: nat)
    requires MeetsBlocks(S, prog, c, n)
    ensures var u := StepClassic(S, prog, c, n);
            match RunBlocks(c, prog[c.pc])
            case Fall(v) => u == v.(pc := u.pc) && u.pc == c.pc + 16 * |prog[c.pc]|
            case Jump(v) => u == v
            case Stop(_) => false
  {
    var bs := prog[c.pc];
    assert AllOk(bs[..n]) && AllOk(bs[n..]);
    hide Classic.LegalRun, Classic.RunOf, RunBlocks;
    BlocksLine(S, c, c, bs[..n]);
    if n == |bs| {
      assert bs[..n] == bs;
    } else {
      BlocksSplit(c, bs[..n], bs[n..]);
      assert bs == bs[..n] + bs[n..];
    }
  }

  ghost predicate FollowsClassic(S: Classic.Setup, prog: Program, c: State, ns: seq<nat>)
    decreases |ns|
  {
    ns == [] || (MeetsBlocks(S, prog, c, ns[0]) && FollowsClassic(S, prog, StepClassic(S, prog, c, ns[0]), ns[1..]))
  }

  ghost function ClassicAfter(S: Classic.Setup, prog: Program, c: State, ns: seq<nat>): State
    requires FollowsClassic(S, prog, c, ns)
    decreases |ns|
  {
    if ns == [] then c else ClassicAfter(S, prog, StepClassic(S, prog, c, ns[0]), ns[1..])
  }

  ghost predicate ClassicBoundary(S: Classic.Setup, c: State, m: Chip.Machine) {
    S.Ok() && m.Ok() && Classic.Fetching(S, m, 0, c.pc) && Wiring.StateOf(S.AsRig(), m) == c
  }

  lemma {:induction false} ClassicChannel(S: Classic.Setup, prog: Program, c: State, m: Chip.Machine, n: nat)
    returns (q: Chip.Machine, k: nat)
    requires ClassicBoundary(S, c, m) && MeetsBlocks(S, prog, c, n)
    ensures Chip.Steps(m, k) == Chip.Done(q) && ClassicBoundary(S, StepClassic(S, prog, c, n), q)
  {
    hide Classic.Fetching, Chip.Steps, Wiring.StateOf, Classic.LegalRun, Classic.RunOf, RunBlocks, BlocksOf;
    q, k := Classic.ProgramRuns(S, m, BlocksOf(S, prog[c.pc][..n]));
  }

  /** The classic machine passes through a fetch with exactly the program's state. */
  lemma {:induction false} ClassicFollows(S: Classic.Setup, prog: Program, c: State, m: Chip.Machine, ns: seq<nat>)
    returns (q: Chip.Machine, k: nat)
    requires ClassicBoundary(S, c, m) && FollowsClassic(S, prog, c, ns)
    ensures Chip.Steps(m, k) == Chip.Done(q) && ClassicBoundary(S, ClassicAfter(S, prog, c, ns), q)
    decreases |ns|
  {
    hide MeetsBlocks, StepClassic, Chip.Steps, Classic.Fetching, Wiring.StateOf;
    if ns == [] {
      q, k := m, 0;
      Zero(m);
    } else {
      var m1, k1 := ClassicChannel(S, prog, c, m, ns[0]);
      var k2;
      q, k2 := ClassicFollows(S, prog, StepClassic(S, prog, c, ns[0]), m1, ns[1..]);
      k := k1 + k2;
      Chip.StepsAdd(m, k1, k2);
    }
  }
}
