/** The record planner of the compact encoding (host/dmaasm/compact.go): which bank-switch
    and count-set records surround each block, and the two passes that must agree on it. */
module Planner {
  import opened Words

  // Bank channels (host/emu/compact.go).
  const PLAIN := 0
  const SIZE8 := 1
  const SIZE8W := 2
  const SIZE8RW := 3
  const SNIFF := 4
  const BSWAP := 5
  const SIZE16 := 6
  const BANKS := 7

  /** Records on these banks chain through cleanup back to the plain window. */
  predicate AutoReturn(bank: int) {
    bank == SIZE8 || bank == SIZE8W || bank == SIZE8RW || bank == BSWAP || bank == SIZE16
  }

  /** One block, as far as planning goes. */
  datatype Shape = Shape(bank: int, count: Word, srcSniff: bool, dstPc: bool, dyn: bool, halt: bool, cntAfter: Word) {
    predicate Valid() {
      0 <= bank < BANKS
    }

    /** The transfer count a record must run at; a zero-count block runs once. */
    function Times(): (k: Word)
      ensures k >= 1
    {
      if count == 0 then 1 else count
    }
  }

  datatype Prim =
    | Rec                             // the block's own record
    | Switch(to: int)                 // rewrite of the fetch window
    | SetCount(bank: int, k: Word)    // count-set record for a bank
    | StageRead                       // SNIFF_DATA -> at, on the sniff bank
    | StagePush                       // at -> %pc, on the plain bank
    | Halt                            // all-zero record

  datatype PState = PState(bank: int, cnt: seq<Word>, dirty: seq<bool>) {
    /** The planner rests only on banks that do not auto-return. */
    predicate Valid() {
      |cnt| == BANKS && |dirty| == BANKS && (bank == PLAIN || bank == SNIFF)
    }

    predicate Stale(b: int, k: Word)
      requires Valid() && 0 <= b < BANKS
    {
      cnt[b] != k || dirty[b]
    }
  }

  const CANON: PState := PState(PLAIN, [1, 1, 1, 1, 1, 1, 1], [false, false, false, false, false, false, false])

  datatype Planned = Planned(st: PState, prims: seq<Prim>)

  function SwitchPrims(from: int, to: int): seq<Prim> {
    if from == to then [] else [Switch(to)]
  }

  /** The deferred sniff-read: a plain read of SNIFF_DATA runs in place on the sniff bank. */
  predicate Deferred(st: PState, s: Shape)
    requires st.Valid()
  {
    s.srcSniff && st.bank == SNIFF && s.bank == PLAIN && s.Times() == 1 && !s.dyn &&
    !st.Stale(SNIFF, 1)
  }

  predicate NeedsCount(st: PState, s: Shape)
    requires st.Valid() && s.Valid()
  {
    !s.dyn && s.cntAfter == 0 && st.Stale(s.bank, s.Times())
  }

  /** A block that runs on its own bank, behind the count-set and switch it needs. */
  function PlanMove(st: PState, s: Shape): (r: Planned)
    requires st.Valid() && s.Valid()
    ensures r.st.Valid()
  {
    var need := NeedsCount(st, s);
    var mid := if need then PLAIN else st.bank;
    var pre := if need then SwitchPrims(st.bank, PLAIN) + [SetCount(s.bank, s.Times())] else [];
    var cnt := if need then st.cnt[s.bank := s.Times()]
               else if !s.dyn && s.cntAfter != 0 then st.cnt[s.bank := s.cntAfter] else st.cnt;
    var dirty := if s.dyn then st.dirty[s.bank := true]
                 else if s.cntAfter != 0 || need then st.dirty[s.bank := false] else st.dirty;
    var out := if AutoReturn(s.bank) then PLAIN else s.bank;
    Planned(PState(out, cnt, dirty), pre + SwitchPrims(mid, s.bank) + [Rec])
  }

  /** The records planned for one block, and the planner state after it. */
  function Plan(st: PState, s: Shape): (r: Planned)
    requires st.Valid() && s.Valid()
    ensures r.st.Valid()
  {
    if s.halt then Planned(st, [Halt])
    else if !Deferred(st, s) then PlanMove(st, s)
    else if s.dstPc then Planned(st.(bank := PLAIN), [StageRead, Switch(PLAIN), StagePush])
    else Planned(st, [Rec])
  }

  /** The count-set records that restore the banks below n. */
  function SyncCounts(st: PState, n: nat): seq<Prim>
    requires st.Valid() && n <= BANKS
  {
    if n == 0 then []
    else SyncCounts(st, n - 1) + if st.Stale(n - 1, 1) then [SetCount(n - 1, 1)] else []
  }

  lemma {:induction false} NothingStale(st: PState, n: nat)
    requires st.Valid() && n <= BANKS && st.cnt == CANON.cnt && st.dirty == CANON.dirty
    ensures SyncCounts(st, n) == []
  {
    if n > 0 { NothingStale(st, n - 1); }
  }

  /** The records that restore canonical state at an instruction boundary. */
  function Sync(st: PState): seq<Prim>
    requires st.Valid()
  {
    SwitchPrims(st.bank, PLAIN) + SyncCounts(st, BANKS)
  }

  predicate AllValid(shapes: seq<Shape>) {
    forall i :: 0 <= i < |shapes| ==> shapes[i].Valid()
  }

  function PlanAll(st: PState, shapes: seq<Shape>): (r: Planned)
    requires st.Valid() && AllValid(shapes)
    ensures r.st.Valid()
    decreases |shapes|
  {
    if shapes == [] then Planned(st, [])
    else
      var p := Plan(st, shapes[0]);
      var q := PlanAll(p.st, shapes[1..]);
      Planned(q.st, p.prims + q.prims)
  }

  /** A whole instruction: its blocks and the trailing sync. */
  function Instr(shapes: seq<Shape>): seq<Prim>
    requires AllValid(shapes)
  {
    var p := PlanAll(CANON, shapes);
    p.prims + Sync(p.st)
  }

  // ----- where each record executes -----

  function BankAfter(bank: int, p: Prim): int {
    match p
    case Switch(to) => to
    case Rec => if AutoReturn(bank) then PLAIN else bank
    case _ => bank
  }

  function BankAt(bank: int, ps: seq<Prim>, i: nat): int
    requires i <= |ps|
    decreases i
  {
    if i == 0 then bank else BankAt(BankAfter(bank, ps[0]), ps[1..], i - 1)
  }

  lemma {:induction false} BankAtSplit(bank: int, ps: seq<Prim>, qs: seq<Prim>, i: nat)
    requires i <= |ps + qs|
    ensures BankAt(bank, ps + qs, i) ==
            if i <= |ps| then BankAt(bank, ps, i) else BankAt(BankAt(bank, ps, |ps|), qs, i - |ps|)
    decreases |ps|
  {
    if ps == [] {
      assert ps + qs == qs;
    } else if i > 0 {
      assert (ps + qs)[1..] == ps[1..] + qs;
      BankAtSplit(BankAfter(bank, ps[0]), ps[1..], qs, i - 1);
    }
  }

  /** A record that writes the fetch window or a count runs where that is harmless. */
  predicate PrimSafe(host: int, p: Prim) {
    match p
    case Switch(_) => !AutoReturn(host)
    case SetCount(_, _) => host == PLAIN
    case StageRead => host == SNIFF
    case StagePush => host == PLAIN
    case _ => true
  }

  predicate PrimsSafe(bank: int, ps: seq<Prim>) {
    forall i :: 0 <= i < |ps| ==> PrimSafe(BankAt(bank, ps, i), ps[i])
  }

  lemma PrimsSafeSplit(bank: int, ps: seq<Prim>, qs: seq<Prim>)
    requires PrimsSafe(bank, ps) && PrimsSafe(BankAt(bank, ps, |ps|), qs)
    ensures PrimsSafe(bank, ps + qs)
    ensures BankAt(bank, ps + qs, |ps + qs|) == BankAt(BankAt(bank, ps, |ps|), qs, |qs|)
  {
    forall i | 0 <= i <= |ps + qs|
      ensures i < |ps + qs| ==> PrimSafe(BankAt(bank, ps + qs, i), (ps + qs)[i])
    {
      BankAtSplit(bank, ps, qs, i);
    }
    BankAtSplit(bank, ps, qs, |ps + qs|);
  }

  lemma SwitchSafe(from: int, to: int)
    requires !AutoReturn(from)
    ensures PrimsSafe(from, SwitchPrims(from, to))
    ensures BankAt(from, SwitchPrims(from, to), |SwitchPrims(from, to)|) == to
  {
  }

  lemma PlanMoveSafe(st: PState, s: Shape)
    requires st.Valid() && s.Valid()
    ensures PrimsSafe(st.bank, PlanMove(st, s).prims)
    ensures BankAt(st.bank, PlanMove(st, s).prims, |PlanMove(st, s).prims|) == PlanMove(st, s).st.bank
  {
    var mid := if NeedsCount(st, s) then PLAIN else st.bank;
    var tail := SwitchPrims(mid, s.bank) + [Rec];
    SwitchSafe(mid, s.bank);
    PrimsSafeSplit(mid, SwitchPrims(mid, s.bank), [Rec]);
    if NeedsCount(st, s) {
      var cs := [SetCount(s.bank, s.Times())];
      SwitchSafe(st.bank, PLAIN);
      PrimsSafeSplit(st.bank, SwitchPrims(st.bank, PLAIN), cs);
      PrimsSafeSplit(st.bank, SwitchPrims(st.bank, PLAIN) + cs, tail);
      assert PlanMove(st, s).prims == SwitchPrims(st.bank, PLAIN) + cs + tail;
    } else {
      assert PlanMove(st, s).prims == tail;
    }
  }

  /** Planning one block keeps every record safe and tracks the machine's bank. */
  lemma PlanSafe(st: PState, s: Shape)
    requires st.Valid() && s.Valid()
    ensures PrimsSafe(st.bank, Plan(st, s).prims)
    ensures BankAt(st.bank, Plan(st, s).prims, |Plan(st, s).prims|) == Plan(st, s).st.bank
  {
    PlanMoveSafe(st, s);
    hide PlanMove;
  }

  lemma {:induction false} SyncCountsSafe(st: PState, n: nat)
    requires st.Valid() && n <= BANKS
    ensures PrimsSafe(PLAIN, SyncCounts(st, n))
    ensures BankAt(PLAIN, SyncCounts(st, n), |SyncCounts(st, n)|) == PLAIN
  {
    if n > 0 {
      SyncCountsSafe(st, n - 1);
      PrimsSafeSplit(PLAIN, SyncCounts(st, n - 1), if st.Stale(n - 1, 1) then [SetCount(n - 1, 1)] else []);
    }
  }

  lemma SyncSafe(st: PState)
    requires st.Valid()
    ensures PrimsSafe(st.bank, Sync(st))
    ensures BankAt(st.bank, Sync(st), |Sync(st)|) == PLAIN
  {
    hide SyncCounts;
    SwitchSafe(st.bank, PLAIN);
    SyncCountsSafe(st, BANKS);
    PrimsSafeSplit(st.bank, SwitchPrims(st.bank, PLAIN), SyncCounts(st, BANKS));
  }

  lemma {:induction false} PlanAllSafe(st: PState, shapes: seq<Shape>)
    requires st.Valid() && AllValid(shapes)
    ensures PrimsSafe(st.bank, PlanAll(st, shapes).prims)
    ensures BankAt(st.bank, PlanAll(st, shapes).prims, |PlanAll(st, shapes).prims|) == PlanAll(st, shapes).st.bank
    decreases |shapes|
  {
    if shapes != [] {
      PlanSafe(st, shapes[0]);
      PlanAllSafe(Plan(st, shapes[0]).st, shapes[1..]);
      PrimsSafeSplit(st.bank, Plan(st, shapes[0]).prims, PlanAll(Plan(st, shapes[0]).st, shapes[1..]).prims);
    }
  }

  /** No switch or count-set record of any instruction executes on an auto-return bank, and
      the machine is back on the plain bank at its end. */
  lemma InstrSafe(shapes: seq<Shape>)
    requires AllValid(shapes)
    ensures PrimsSafe(PLAIN, Instr(shapes))
    ensures BankAt(PLAIN, Instr(shapes), |Instr(shapes)|) == PLAIN
  {
    var p := PlanAll(CANON, shapes);
    PlanAllSafe(CANON, shapes);
    SyncSafe(p.st);
    PrimsSafeSplit(PLAIN, p.prims, Sync(p.st));
  }
}
