/** The two encodings of a program as machines: classic blocks run one by one, and compact
    records run on the bank the fetch window selects (host/emu/compact.go). */
module Compact {
  import opened Words
  import opened Core
  import opened Planner

  /** The record landing zone of a bank channel: its alias-2 READ_ADDR. */
  function WindowOf(bank: int): Word
    requires 0 <= bank < BANKS
  {
    0x5000_0028 + bank * 0x40
  }

  function BankOf(w: Word): int {
    (w - 0x5000_0028) / 0x40
  }

  /** The transfer mode a bank's preset CTRL word encodes. */
  function BankMode(bank: int): (m: Mode)
    ensures m.Ok()
  {
    Mode(if bank == SIZE8 || bank == SIZE8W || bank == SIZE8RW then 1 else if bank == SIZE16 then 2 else 4,
         bank == SIZE8RW, bank == SIZE8W || bank == SIZE8RW, bank == BSWAP, bank == SNIFF)
  }

  // ----- classic blocks -----

  /** A program block. Its CTRL word is named by the bank it classifies to; a dyn block takes
      the transfer count patched in at run time. */
  datatype Block = Block(src: Loc, dst: Loc, count: Word, bank: int, dyn: bool) | HaltBlock {
    predicate Banked() {
      Block? ==> 0 <= bank < BANKS
    }

    predicate Ok() {
      Block? ==> 0 <= bank < BANKS && Aligned(src, BankMode(bank).size) && Aligned(dst, BankMode(bank).size)
    }

    function Times(s: State): nat
      requires Block?
    {
      if dyn then Peek(s.cnt, bank) else count
    }
  }

  /** How a stretch of code is left: by falling off its end, by a write to %pc, or by a halt. */
  datatype Outcome = Fall(s: State) | Jump(s: State) | Stop(s: State)

  function ExecBlock(s: State, b: Block): State
    requires b.Ok() && b.Block?
  {
    Burst(s, b.src, b.dst, BankMode(b.bank), b.Times(s))
  }

  predicate AllOk(bs: seq<Block>) {
    forall i :: 0 <= i < |bs| ==> bs[i].Ok()
  }

  function RunBlocks(s: State, bs: seq<Block>): Outcome
    requires AllOk(bs)
    decreases |bs|
  {
    if bs == [] then Fall(s)
    else if bs[0].HaltBlock? then Stop(s)
    else
      var s' := ExecBlock(s, bs[0]);
      if bs[0].dst == Pc && bs[0].Times(s) > 0 then Jump(s') else RunBlocks(s', bs[1..])
  }

  // ----- compact records -----

  datatype Record = Record(src: Loc, dst: Loc) | HaltRecord

  /** The record can run on this bank at all: its addresses are aligned for the bank's size. */
  predicate Runs(r: Record, bank: int) {
    r.Record? ==> Aligned(r.src, BankMode(bank).size) && Aligned(r.dst, BankMode(bank).size)
  }

  /** One record on the selected bank, at the bank's count; auto-return banks end on plain. */
  function ExecRecord(s: State, r: Record): State
    requires r.Record? && Runs(r, BankOf(s.win))
  {
    var bank := BankOf(s.win);
    var s' := Burst(s, r.src, r.dst, BankMode(bank), Peek(s.cnt, bank));
    if AutoReturn(bank) then s'.(win := WindowOf(PLAIN)) else s'
  }

  /** Runs records until one leaves; a misaligned record faults the machine. */
  function RunRecords(s: State, rs: seq<Record>): Outcome
    decreases |rs|
  {
    if rs == [] then Fall(s)
    else if rs[0].HaltRecord? || !Runs(rs[0], BankOf(s.win)) then Stop(s)
    else
      var s' := ExecRecord(s, rs[0]);
      if rs[0].dst == Pc && Peek(s.cnt, BankOf(s.win)) > 0 then Jump(s') else RunRecords(s', rs[1..])
  }

  lemma {:induction false} RunRecordsSplit(s: State, rs: seq<Record>, qs: seq<Record>)
    ensures RunRecords(s, rs + qs) ==
            (match RunRecords(s, rs) case Fall(s') => RunRecords(s', qs) case o => o)
    decreases |rs|
  {
    hide ExecRecord;
    if rs == [] {
      assert rs + qs == qs;
    } else {
      assert (rs + qs)[1..] == rs[1..] + qs;
      if !(rs[0].HaltRecord? || !Runs(rs[0], BankOf(s.win))) &&
         !(rs[0].dst == Pc && Peek(s.cnt, BankOf(s.win)) > 0) {
        RunRecordsSplit(ExecRecord(s, rs[0]), rs[1..], qs);
      }
    }
  }

  // ----- emission -----

  /** The cells the assembler reserves: the at and null registers and the literal pool. */
  datatype Env = Env(at: int, nul: int, lits: map<Word, int>) {
    predicate Ok() {
      && at % 4 == 0 && nul % 4 == 0 && at != nul
      && (forall v :: v in lits ==> lits[v] % 4 == 0 && lits[v] != at && lits[v] != nul)
      && (forall b :: 0 <= b < BANKS ==> WindowOf(b) in lits) && 1 in lits
    }

    predicate Pool(i: int) {
      exists v :: v in lits && lits[v] / 4 == i
    }
  }

  function ShapeOf(b: Block): (s: Shape)
    requires b.Banked()
    ensures s.Valid()
  {
    if b.HaltBlock? then Shape(0, 0, false, false, false, true, 0)
    else Shape(b.bank, b.count, b.src == Acc, b.dst == Pc, b.dyn, false, 0)
  }

  predicate AllBanked(bs: seq<Block>) {
    forall i :: 0 <= i < |bs| ==> bs[i].Banked()
  }

  /** The shapes of emitted blocks, seen through their pointers. */
  function Shapes(bs: seq<Block>): (ss: seq<Shape>)
    requires AllBanked(bs)
    ensures |ss| == |bs| && AllValid(ss) && forall i :: 0 <= i < |bs| ==> ss[i] == ShapeOf(bs[i])
  {
    seq(|bs|, i requires 0 <= i < |bs| => ShapeOf(bs[i]))
  }

  predicate PrimOk(env: Env, p: Prim) {
    match p
    case Switch(to) => 0 <= to < BANKS
    case SetCount(_, k) => k in env.lits
    case _ => true
  }

  /** The record a planned primitive becomes (b is the block being converted). */
  function Emit(env: Env, p: Prim, b: Block): Record
    requires env.Ok() && PrimOk(env, p)
  {
    match p
    case Rec => if b.Block? then Record(b.src, b.dst) else HaltRecord
    case Switch(to) => Record(Mem(env.lits[WindowOf(to)]), Window)
    case SetCount(bank, k) => Record(Mem(env.lits[k]), Count(bank))
    case StageRead => Record(Acc, Mem(env.at))
    case StagePush => Record(Mem(env.at), Pc)
    case Halt => HaltRecord
  }

  function EmitAll(env: Env, ps: seq<Prim>, b: Block): (rs: seq<Record>)
    requires env.Ok() && forall i :: 0 <= i < |ps| ==> PrimOk(env, ps[i])
    ensures |rs| == |ps| && forall i :: 0 <= i < |ps| ==> rs[i] == Emit(env, ps[i], b)
  {
    seq(|ps|, i requires 0 <= i < |ps| => Emit(env, ps[i], b))
  }
}
