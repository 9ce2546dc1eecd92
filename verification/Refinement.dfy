/** The compact encoding preserves the meaning of the classic one: for every block sequence
    that obeys the mode-domain rules, the planned records drive the bank machine to the same
    memory and %pc, up to the dead accumulator, the at register and the null sink. */
module Refinement {
  import opened Words
  import opened Core
  import opened Planner
  import opened Compact

  /** What is known to agree: whether the accumulator is live, whether at is, and which bank
      counts a program has set for a coming dyn block. */
  datatype Flags = Flags(live: bool, atOk: bool, pend: set<int>)

  ghost predicate SameMem(env: Env, atOk: bool, m: map<int, Word>, n: map<int, Word>) {
    forall i :: i != env.nul / 4 && (atOk || i != env.at / 4) ==> Peek(m, i) == Peek(n, i)
  }

  ghost predicate PoolOk(env: Env, m: map<int, Word>) {
    forall v :: v in env.lits ==> Peek(m, env.lits[v] / 4) == v
  }

  /** The classic state c and the bank state b agree on everything a program can still see. */
  ghost predicate Sim(env: Env, live: bool, atOk: bool, c: State, b: State) {
    && c.sctl == b.sctl && c.pc == b.pc
    && (live ==> c.acc == b.acc)
    && SameMem(env, atOk, c.mem, b.mem)
    && PoolOk(env, b.mem)
  }

  ghost predicate CountsOk(st: PState, pend: set<int>, c: State, b: State)
    requires st.Valid()
  {
    forall k :: 0 <= k < BANKS ==>
      if k in pend then Peek(b.cnt, k) == Peek(c.cnt, k) && !st.Stale(k, 1)
      else !st.dirty[k] ==> Peek(b.cnt, k) == st.cnt[k]
  }

  /** The full relation while the machine sits on the given bank, with the planner's idea of
      the counts. The plain and sniff banks always run at count 1. */
  ghost predicate RelAt(env: Env, bank: int, st: PState, f: Flags, c: State, b: State) {
    && env.Ok() && st.Valid() && 0 <= bank < BANKS
    && Sim(env, f.live, f.atOk, c, b)
    && b.win == WindowOf(bank)
    && CountsOk(st, f.pend, c, b)
    && f.pend <= {SIZE8W, SIZE8RW} && !st.Stale(PLAIN, 1) && !st.Stale(SNIFF, 1)
  }

  ghost predicate Rel(env: Env, st: PState, f: Flags, c: State, b: State) {
    RelAt(env, st.bank, st, f, c, b)
  }

  // ----- the mode-domain rules -----

  ghost predicate AccUse(b: Block)
    requires b.Block?
  {
    b.src == Acc || b.dst == AccXor || b.dst == AccSet || b.dst == AccClr || b.bank == SNIFF
  }

  ghost predicate SrcOk(env: Env, atOk: bool, l: Loc) {
    match l
    case Mem(a) => a / 4 != env.nul / 4 && (atOk || a / 4 != env.at / 4)
    case Acc | SniffCtl => true
    case _ => false
  }

  ghost predicate DstOk(env: Env, l: Loc) {
    match l
    case Mem(a) => !env.Pool(a / 4)
    case Window => false
    case _ => true
  }

  /** Every word the block's transfers touch may be touched. */
  ghost predicate WalkOk(env: Env, atOk: bool, src: Loc, dst: Loc, m: Mode, k: nat)
    decreases k
  {
    k > 0 ==>
      SrcOk(env, atOk, src) && DstOk(env, dst) &&
      WalkOk(env, atOk, Next(src, m.incrR, m.size), Next(dst, m.incrW, m.size), m, k - 1)
  }

  ghost predicate CleanCounts(st: PState)
    requires st.Valid()
  {
    st.cnt == CANON.cnt && st.dirty == CANON.dirty
  }

  /** Converting the block leaves the sniff bank, which adds a literal to the accumulator. */
  ghost predicate LeavesSniff(st: PState, b: Block)
    requires st.Valid() && b.Ok() && b.Block?
  {
    st.bank == SNIFF && !Deferred(st, ShapeOf(b)) && (b.bank != SNIFF || NeedsCount(st, ShapeOf(b)))
  }

  ghost predicate BlockOk(env: Env, st: PState, f: Flags, c: State, b: Block)
    requires st.Valid() && b.Ok() && b.Block?
  {
    && (b.bank == PLAIN || b.bank == SNIFF ==> b.count <= 1 && !b.dyn)
    && (b.bank == SNIFF ==> b.count == 1)
    && (b.dyn <==> b.bank in f.pend)
    && (b.count == 0 && !b.dyn ==> b.bank == PLAIN && b.src.Mem? && b.dst == Mem(env.nul))
    && ShapeOf(b).Times() in env.lits
    && SrcOk(env, f.atOk, b.src) && DstOk(env, b.dst)
    && WalkOk(env, f.atOk, b.src, b.dst, BankMode(b.bank), b.Times(c))
    && (AccUse(b) ==> f.live && !LeavesSniff(st, b))
    && (b.dst.Count? ==> b.bank == PLAIN && b.count == 1 && (b.dst.bank == SIZE8W || b.dst.bank == SIZE8RW) &&
                         !st.Stale(b.dst.bank, 1))
    && (b.dst == Pc ==> b.bank == PLAIN && b.count == 1 && CleanCounts(st))
  }

  ghost function After(env: Env, st: PState, f: Flags, b: Block): Flags
    requires st.Valid() && b.Ok() && b.Block?
  {
    var deferred := Deferred(st, ShapeOf(b));
    Flags(if deferred then false else (b.dst == Acc && !b.dyn) || (f.live && !LeavesSniff(st, b)),
          if deferred && b.dst == Pc then false
          else f.atOk || (b.dst == Mem(env.at) && BankMode(b.bank).size == 4 && b.count == 1),
          if b.dyn then f.pend - {b.bank} else if b.dst.Count? then f.pend + {b.dst.bank} else f.pend)
  }

  // ----- one transfer and one burst on both sides -----

  lemma ReadSame(env: Env, live: bool, atOk: bool, c: State, b: State, l: Loc, size: int)
    requires Sim(env, live, atOk, c, b) && Aligned(l, size) && SrcOk(env, atOk, l) && (l == Acc ==> live)
    ensures Read(c, l, size) == Read(b, l, size)
  {
  }

  lemma WriteSim(env: Env, live: bool, atOk: bool, c: State, b: State, l: Loc, v: Word, size: int)
    requires Sim(env, live, atOk, c, b) && Aligned(l, size) && DstOk(env, l)
    requires l == AccXor || l == AccSet || l == AccClr ==> live
    requires env.Ok()
    ensures Sim(env, live || l == Acc, atOk
              || (l == Mem(env.at) && size == 4), Write(c, l, v, size), Write(b, l, v, size))
    ensures !l.Count? ==> Write(b, l, v, size).cnt == b.cnt && Write(c, l, v, size).cnt == c.cnt
    ensures Write(b, l, v, size).win == b.win
  {
    if l.Mem? {
      var c', b' := Write(c, l, v, size), Write(b, l, v, size);
      var j := l.addr / 4;
      assert forall i :: i != j ==> Peek(c'.mem, i) == Peek(c.mem, i) && Peek(b'.mem, i) == Peek(b.mem, i);
      assert j != env.nul / 4 && (atOk || j != env.at / 4) ==> Peek(c'.mem, j) == Peek(b'.mem, j);
      forall w | w in env.lits ensures Peek(b'.mem, env.lits[w] / 4) == w {
        assert env.Pool(env.lits[w] / 4);
      }
    }
  }

  lemma MoveSim(env: Env, live: bool, atOk: bool, c: State, b: State, src: Loc, dst: Loc, m: Mode)
    requires env.Ok() && Sim(env, live, atOk, c, b) && m.Ok() && Aligned(src, m.size) && Aligned(dst, m.size)
    requires SrcOk(env, atOk, src) && DstOk(env, dst)
    requires src == Acc || dst == AccXor || dst == AccSet || dst == AccClr || m.sniff ==> live
    ensures Sim(env, live || dst == Acc, atOk
              || (dst == Mem(env.at) && m.size == 4), Move(c, src, dst, m), Move(b, src, dst, m))
    ensures !dst.Count? ==> Move(b, src, dst, m).cnt == b.cnt && Move(c, src, dst, m).cnt == c.cnt
    ensures Move(b, src, dst, m).win == b.win
  {
    hide Read, Write, SameMem, PoolOk;
    ReadSame(env, live, atOk, c, b, src, m.size);
    var d := Read(c, src, m.size);
    var d' := if m.bswap then Bswap(d, m.size) else d;
    WriteSim(env, live, atOk, c, b, dst, d', m.size);
  }

  lemma SimWeaken(env: Env, live: bool, atOk: bool, live': bool, atOk': bool, c: State, b: State)
    requires Sim(env, live, atOk, c, b) && (live' ==> live) && (atOk' ==> atOk)
    ensures Sim(env, live', atOk', c, b)
  {
  }

  lemma {:induction false} BurstSim(env: Env, live: bool, atOk: bool, c: State, b: State, src: Loc, dst: Loc, m: Mode,
                                    k: nat)
    requires env.Ok() && Sim(env, live, atOk, c, b) && m.Ok() && Aligned(src, m.size) && Aligned(dst, m.size)
    requires WalkOk(env, atOk, src, dst, m, k)
    requires src == Acc || dst == AccXor || dst == AccSet || dst == AccClr || m.sniff ==> live
    ensures Sim(env, live || (dst == Acc && k > 0), atOk || (dst == Mem(env.at) && m.size == 4 && k == 1),
                Burst(c, src, dst, m, k), Burst(b, src, dst, m, k))
    ensures !dst.Count? ==> Burst(b, src, dst, m, k).cnt == b.cnt && Burst(c, src, dst, m, k).cnt == c.cnt
    ensures Burst(b, src, dst, m, k).win == b.win
    decreases k
  {
    hide Move, Sim;
    if k > 0 {
      MoveSim(env, live, atOk, c, b, src, dst, m);
      var c', b' := Move(c, src, dst, m), Move(b, src, dst, m);
      var live', atOk' := live || dst == Acc, atOk || (dst == Mem(env.at) && m.size == 4);
      if k > 1 {
        SimWeaken(env, live', atOk', live', atOk, c', b');
        var src', dst' := Next(src, m.incrR, m.size), Next(dst, m.incrW, m.size);
        BurstSim(env, live', atOk, c', b', src', dst', m, k - 1);
        SimWeaken(env, live' || (dst' == Acc && k - 1 > 0), atOk || (dst' == Mem(env.at) && m.size == 4 && k - 1 == 1),
                  live', atOk, Burst(c', src', dst', m, k - 1), Burst(b', src', dst', m, k - 1));
      }
    }
  }

  // ----- the planner's own records -----

  /** One record at count 1. */
  lemma RecordOnce(b: State, bank: int, r: Record)
    requires 0 <= bank < BANKS && b.win == WindowOf(bank) && Peek(b.cnt, bank) == 1 && r.Record? && Runs(r, bank)
    ensures var s := Move(b, r.src, r.dst, BankMode(bank));
            var s' := if AutoReturn(bank) then s.(win := WindowOf(PLAIN)) else s;
            RunRecords(b, [r]) == if r.dst == Pc then Jump(s') else Fall(s')
  {
    hide Move;
    assert BankOf(b.win) == bank;
    var s := Move(b, r.src, r.dst, BankMode(bank));
    assert Burst(b, r.src, r.dst, BankMode(bank), 1) == s;
    assert [r][1..] == [];
  }

  /** A switch record lands on the target bank; run on the sniff bank it costs the accumulator. */
  lemma SwitchStep(env: Env, bank: int, st: PState, f: Flags, c: State, b: State, to: int, blk: Block)
    requires RelAt(env, bank, st, f, c, b) && (bank == PLAIN || bank == SNIFF) && 0 <= to < BANKS
    ensures var o := RunRecords(b, EmitAll(env, SwitchPrims(bank, to), blk));
            o.Fall? && RelAt(env, to, st, f.(live := f.live && (bank == to || bank == PLAIN)), c, o.s)
  {
    if bank == to {
      assert EmitAll(env, SwitchPrims(bank, to), blk) == [];
    } else {
      var r := Record(Mem(env.lits[WindowOf(to)]), Window);
      assert EmitAll(env, SwitchPrims(bank, to), blk) == [r];
      assert !st.Stale(bank, 1);
      assert Peek(b.cnt, bank) == 1;
      RecordOnce(b, bank, r);
      LiteralRead(env, b, WindowOf(to));
      var s := Move(b, r.src, r.dst, BankMode(bank));
      assert s.mem == b.mem && s.cnt == b.cnt && s.win == WindowOf(to);
      assert bank == PLAIN ==> s.acc == b.acc;
    }
  }

  lemma LiteralRead(env: Env, b: State, v: Word)
    requires env.Ok() && PoolOk(env, b.mem) && v in env.lits
    ensures Read(b, Mem(env.lits[v]), 4) == v
  {
  }

  /** A count-set record on the plain bank. */
  lemma CountStep(env: Env, st: PState, f: Flags, c: State, b: State, k: int, v: Word, blk: Block)
    requires RelAt(env, PLAIN, st, f, c, b) && 0 <= k < BANKS && k !in f.pend && v in env.lits
    requires k == PLAIN || k == SNIFF ==> v == 1
    ensures var o := RunRecords(b, EmitAll(env, [SetCount(k, v)], blk));
            o.Fall? && RelAt(env, PLAIN, st.(cnt := st.cnt[k := v], dirty := st.dirty[k := false]), f, c, o.s)
  {
    var r := Record(Mem(env.lits[v]), Count(k));
    assert EmitAll(env, [SetCount(k, v)], blk) == [r];
    assert !st.Stale(PLAIN, 1);
    assert Peek(b.cnt, PLAIN) == 1;
    RecordOnce(b, PLAIN, r);
    LiteralRead(env, b, v);
    var s := Move(b, r.src, r.dst, BankMode(PLAIN));
    assert s.mem == b.mem && s.acc == b.acc && s.win == b.win && s.cnt == b.cnt[k := v];
  }

  // ----- one block -----

  /** The block's own record, once the machine is on its bank at its count. */
  lemma OwnRecord(env: Env, st: PState, f: Flags, c: State, b: State, blk: Block)
    requires blk.Block? && blk.Ok() && RelAt(env, blk.bank, st, f, c, b)
    requires Peek(b.cnt, blk.bank) == blk.Times(c) && (blk.dst == Pc ==> blk.Times(c) > 0)
    requires WalkOk(env, f.atOk, blk.src, blk.dst, BankMode(blk.bank), blk.Times(c)) && DstOk(env, blk.dst)
    requires AccUse(blk) ==> f.live
    requires !blk.dst.Count?
    ensures var o := RunRecords(b, [Record(blk.src, blk.dst)]);
            var c' := ExecBlock(c, blk);
            var k := blk.Times(c);
            && o == (if blk.dst == Pc then Jump(o.s) else Fall(o.s))
            && Sim(env, f.live || (blk.dst == Acc && k > 0),
                   f.atOk || (blk.dst == Mem(env.at) && BankMode(blk.bank).size == 4 && k == 1), c', o.s)
            && o.s.cnt == b.cnt && c'.cnt == c.cnt
            && o.s.win == WindowOf(if AutoReturn(blk.bank) then PLAIN else blk.bank)
  {
    hide Sim, Burst, WalkOk;
    var r := Record(blk.src, blk.dst);
    assert BankOf(b.win) == blk.bank && [r][1..] == [];
    BurstSim(env, f.live, f.atOk, c, b, blk.src, blk.dst, BankMode(blk.bank), blk.Times(c));
    var s := Burst(b, blk.src, blk.dst, BankMode(blk.bank), blk.Times(c));
    SimWindow(env, f.live || (blk.dst == Acc && blk.Times(c) > 0),
              f.atOk || (blk.dst == Mem(env.at) && BankMode(blk.bank).size == 4 && blk.Times(c) == 1),
              ExecBlock(c, blk), s, WindowOf(PLAIN));
  }

  lemma SimWindow(env: Env, live: bool, atOk: bool, c: State, b: State, w: Word)
    requires Sim(env, live, atOk, c, b)
    ensures Sim(env, live, atOk, c, b.(win := w))
  {
  }

  lemma PlanPrims(env: Env, st: PState, s: Shape)
    requires env.Ok() && st.Valid() && s.Valid() && s.Times() in env.lits
    ensures forall i :: 0 <= i < |Plan(st, s).prims| ==> PrimOk(env, Plan(st, s).prims[i])
  {
  }

  /** The records of one block, from planner state st. */
  function Records(env: Env, st: PState, blk: Block): seq<Record>
    requires env.Ok() && st.Valid() && blk.Ok() && ShapeOf(blk).Times() in env.lits
  {
    PlanPrims(env, st, ShapeOf(blk));
    EmitAll(env, Plan(st, ShapeOf(blk)).prims, blk)
  }

  lemma EmitAllSplit(env: Env, ps: seq<Prim>, qs: seq<Prim>, blk: Block)
    requires env.Ok() && forall i :: 0 <= i < |ps + qs| ==> PrimOk(env, (ps + qs)[i])
    ensures forall i :: 0 <= i < |ps| ==> PrimOk(env, ps[i])
    ensures forall i :: 0 <= i < |qs| ==> PrimOk(env, qs[i])
    ensures EmitAll(env, ps + qs, blk) == EmitAll(env, ps, blk) + EmitAll(env, qs, blk)
  {
    forall i | 0 <= i < |ps| ensures PrimOk(env, ps[i]) { assert (ps + qs)[i] == ps[i]; }
    forall i | 0 <= i < |qs| ensures PrimOk(env, qs[i]) { assert (ps + qs)[|ps| + i] == qs[i]; }
  }

  /** The state the planner has reached just before the block's own record. */
  function Ready(st: PState, s: Shape): PState
    requires st.Valid() && s.Valid()
  {
    if NeedsCount(st, s) then st.(cnt := st.cnt[s.bank := s.Times()], dirty := st.dirty[s.bank := false]) else st
  }

  /** The switches and count-set in front of the block's own record. */
  lemma Approach(env: Env, st: PState, f: Flags, c: State, b: State, blk: Block)
    requires Rel(env, st, f, c, b) && blk.Block? && blk.Ok() && BlockOk(env, st, f, c, blk)
    requires !Deferred(st, ShapeOf(blk))
    ensures var s := ShapeOf(blk);
            var pre := (if NeedsCount(st, s) then SwitchPrims(st.bank, PLAIN) + [SetCount(s.bank, s.Times())] else []) +
                       SwitchPrims(if NeedsCount(st, s) then PLAIN else st.bank, s.bank);
            && (forall i :: 0 <= i < |pre| ==> PrimOk(env, pre[i]))
            && var o := RunRecords(b, EmitAll(env, pre, blk));
            o.Fall? && RelAt(env, blk.bank, Ready(st, s), f.(live := f.live && !LeavesSniff(st, blk)), c, o.s)
  {
    hide Sim, RunRecords;
    var s := ShapeOf(blk);
    var last := SwitchPrims(if NeedsCount(st, s) then PLAIN else st.bank, s.bank);
    if NeedsCount(st, s) {
      var a, n := SwitchPrims(st.bank, PLAIN), [SetCount(s.bank, s.Times())];
      SwitchStep(env, st.bank, st, f, c, b, PLAIN, blk);
      var b1 := RunRecords(b, EmitAll(env, a, blk)).s;
      var f1 := f.(live := f.live && st.bank == PLAIN);
      CountStep(env, st, f1, c, b1, s.bank, s.Times(), blk);
      var b2 := RunRecords(b1, EmitAll(env, n, blk)).s;
      SwitchStep(env, PLAIN, Ready(st, s), f1, c, b2, s.bank, blk);
      EmitAllSplit(env, a, n, blk);
      EmitAllSplit(env, a + n, last, blk);
      RunRecordsSplit(b, EmitAll(env, a, blk), EmitAll(env, n, blk));
      RunRecordsSplit(b, EmitAll(env, a + n, blk), EmitAll(env, last, blk));
    } else {
      SwitchStep(env, st.bank, st, f, c, b, s.bank, blk);
      assert [] + last == last;
    }
  }

  /** How the two sides of one block compare: same exit, related states. */
  ghost predicate Matches(env: Env, st: PState, f: Flags, c: State, blk: Block, o: Outcome)
    requires st.Valid() && blk.Block? && blk.Ok()
  {
    && (if blk.dst == Pc then o.Jump? else o.Fall?)
    && Rel(env, Plan(st, ShapeOf(blk)).st, After(env, st, f, blk), ExecBlock(c, blk), o.s)
  }

  /** A zero-count block runs once into the null sink, which nothing reads. */
  lemma NopRecord(env: Env, st: PState, f: Flags, c: State, b: State, blk: Block)
    requires blk.Block? && blk.Ok() && blk.bank == PLAIN && RelAt(env, PLAIN, st, f, c, b)
    requires blk.src.Mem? && blk.dst == Mem(env.nul)
    ensures var o := RunRecords(b, [Record(blk.src, blk.dst)]);
            o.Fall? && RelAt(env, PLAIN, st, f, c, o.s)
  {
    var r := Record(blk.src, blk.dst);
    assert !st.Stale(PLAIN, 1);
    RecordOnce(b, PLAIN, r);
    var s := Move(b, r.src, r.dst, BankMode(PLAIN));
    assert s == b.(mem := s.mem);
    assert forall i :: i != env.nul / 4 ==> Peek(s.mem, i) == Peek(b.mem, i);
  }

  /** A program's own write to an incrementing bank's count. */
  lemma CountRecord(env: Env, st: PState, f: Flags, c: State, b: State, blk: Block)
    requires blk.Block? && blk.Ok() && blk.bank == PLAIN && RelAt(env, PLAIN, st, f, c, b) && blk.count == 1 && !blk.dyn
    requires blk.dst.Count? && (blk.dst.bank == SIZE8W || blk.dst.bank == SIZE8RW) && !st.Stale(blk.dst.bank, 1)
    requires SrcOk(env, f.atOk, blk.src) && (blk.src == Acc ==> f.live)
    ensures var o := RunRecords(b, [Record(blk.src, blk.dst)]);
            o.Fall? && RelAt(env, PLAIN, st, f.(pend := f.pend + {blk.dst.bank}), ExecBlock(c, blk), o.s)
  {
    var r := Record(blk.src, blk.dst);
    assert !st.Stale(PLAIN, 1);
    RecordOnce(b, PLAIN, r);
    ReadSame(env, f.live, f.atOk, c, b, blk.src, 4);
    assert ExecBlock(c, blk) == Move(c, blk.src, blk.dst, BankMode(PLAIN)) by {
      hide Move;
      assert Burst(c, blk.src, blk.dst, BankMode(PLAIN), 1) == Move(c, blk.src, blk.dst, BankMode(PLAIN));
    }
  }

  /** An ordinary block's own record. */
  lemma MoveRecord(env: Env, st: PState, f: Flags, c: State, b: State, blk: Block)
    requires st.Valid() && blk.Block? && blk.Ok() && BlockOk(env, st, f, c, blk) && !Deferred(st, ShapeOf(blk))
    requires RelAt(env, blk.bank, Ready(st, ShapeOf(blk)), f.(live := f.live && !LeavesSniff(st, blk)), c, b)
    requires !st.Stale(PLAIN, 1) && !st.Stale(SNIFF, 1)
    requires !(blk.count == 0 && !blk.dyn) && !blk.dst.Count?
    ensures Matches(env, st, f, c, blk, RunRecords(b, [Record(blk.src, blk.dst)]))
  {
    hide Sim, Burst, RunRecords, WalkOk, SrcOk, DstOk, PlanMove;
    var s := ShapeOf(blk);
    var st1 := Ready(st, s);
    var f1 := f.(live := f.live && !LeavesSniff(st, blk));
    assert Peek(b.cnt, blk.bank) == blk.Times(c);
    OwnRecord(env, st1, f1, c, b, blk);
    var o := RunRecords(b, [Record(blk.src, blk.dst)]);
    var c', f2, st2 := ExecBlock(c, blk), After(env, st, f, blk), Plan(st, s).st;
    SimWeaken(env, f1.live || (blk.dst == Acc && blk.Times(c) > 0),
              f1.atOk || (blk.dst == Mem(env.at) && BankMode(blk.bank).size == 4 && blk.Times(c) == 1),
              f2.live, f2.atOk, c', o.s);
    MoveCounts(env, st, f, c, b, blk, c', o.s);
  }

  /** The counts after an ordinary block. */
  lemma MoveCounts(env: Env, st: PState, f: Flags, c: State, b: State, blk: Block, c': State, b': State)
    requires st.Valid() && blk.Block? && blk.Ok() && BlockOk(env, st, f, c, blk) && !Deferred(st, ShapeOf(blk))
    requires CountsOk(Ready(st, ShapeOf(blk)), f.pend, c, b) && f.pend <= {SIZE8W, SIZE8RW}
    requires !st.Stale(PLAIN, 1) && !st.Stale(SNIFF, 1)
    requires !blk.dst.Count? && b'.cnt == b.cnt && c'.cnt == c.cnt
    ensures var st2 := Plan(st, ShapeOf(blk)).st;
            && CountsOk(st2, After(env, st, f, blk).pend, c', b') && !st2.Stale(PLAIN, 1) && !st2.Stale(SNIFF, 1)
            && st2.bank == if AutoReturn(blk.bank) then PLAIN else blk.bank
  {
    hide WalkOk, SrcOk, DstOk;
  }

  /** The block's own record in all its forms. */
  lemma LastRecord(env: Env, st: PState, f: Flags, c: State, b: State, blk: Block)
    requires st.Valid() && blk.Block? && blk.Ok() && BlockOk(env, st, f, c, blk) && !Deferred(st, ShapeOf(blk))
    requires RelAt(env, blk.bank, Ready(st, ShapeOf(blk)), f.(live := f.live && !LeavesSniff(st, blk)), c, b)
    requires !st.Stale(PLAIN, 1) && !st.Stale(SNIFF, 1)
    ensures Matches(env, st, f, c, blk, RunRecords(b, [Record(blk.src, blk.dst)]))
  {
    hide Sim, RunRecords;
    var st1 := Ready(st, ShapeOf(blk));
    var f1 := f.(live := f.live && !LeavesSniff(st, blk));
    if blk.count == 0 && !blk.dyn {
      NopRecord(env, st1, f1, c, b, blk);
    } else if blk.dst.Count? {
      CountRecord(env, st1, f1, c, b, blk);
    } else {
      MoveRecord(env, st, f, c, b, blk);
    }
  }

  lemma BurstOnce(s: State, src: Loc, dst: Loc, m: Mode)
    requires m.Ok() && Aligned(src, m.size) && Aligned(dst, m.size)
    ensures Burst(s, src, dst, m, 1) == Move(s, src, dst, m)
  {
  }

  /** A deferred read delivers the exact datum and spends the accumulator. */
  lemma ReadInPlace(env: Env, st: PState, f: Flags, c: State, b: State, blk: Block)
    requires Rel(env, st, f, c, b) && blk.Block? && blk.Ok() && BlockOk(env, st, f, c, blk)
    requires Deferred(st, ShapeOf(blk)) && blk.dst != Pc
    ensures Matches(env, st, f, c, blk, RunRecords(b, [Record(blk.src, blk.dst)]))
  {
    var r := Record(blk.src, blk.dst);
    var plain, sniff := BankMode(PLAIN), BankMode(SNIFF);
    assert blk.count == 1;
    assert Peek(b.cnt, SNIFF) == 1;
    RecordOnce(b, SNIFF, r);
    BurstOnce(c, blk.src, blk.dst, plain);
    MoveSim(env, f.live, f.atOk, c, b, blk.src, blk.dst, plain);
    var b1, b2 := Move(b, blk.src, blk.dst, plain), Move(b, blk.src, blk.dst, sniff);
    assert b2 == b1.(acc := b2.acc);
    hide Move, Burst, RunRecords, SameMem, PoolOk;
    if blk.dst.Count? { var v := CountMoved(c, b, blk.src, blk.dst.bank, plain, f.atOk, f.live, env); }
  }

  lemma CountMoved(c: State, b: State, src: Loc, k: int, m: Mode, atOk: bool, live: bool, env: Env)
    returns (v: Word)
    requires m.Ok() && m.size == 4 && !m.sniff && Aligned(src, 4) && Sim(env, live, atOk, c, b) && SrcOk(env, atOk, src)
    requires src == Acc ==> live
    ensures Move(c, src, Count(k), m).cnt == c.cnt[k := v] && Move(b, src, Count(k), m).cnt == b.cnt[k := v]
  {
    ReadSame(env, live, atOk, c, b, src, 4);
    var d := Read(c, src, 4);
    v := if m.bswap then Bswap(d, 4) else d;
  }

  /** Staging the accumulator in at. */
  lemma StageIn(env: Env, st: PState, f: Flags, c: State, b: State) returns (b1: State)
    requires Rel(env, st, f, c, b) && st.bank == SNIFF
    ensures RunRecords(b, [Record(Acc, Mem(env.at))]) == Fall(b1)
    ensures b1 == b.(mem := b.mem[env.at / 4 := AccRead(b)], acc := b1.acc)
    ensures RelAt(env, SNIFF, st, Flags(false, false, f.pend), c, b1)
  {
    assert !st.Stale(SNIFF, 1);
    RecordOnce(b, SNIFF, Record(Acc, Mem(env.at)));
    b1 := Move(b, Acc, Mem(env.at), BankMode(SNIFF));
    assert forall i :: i != env.at / 4 ==> Peek(b1.mem, i) == Peek(b.mem, i);
  }

  /** Pushing at into %pc. */
  lemma StageOut(env: Env, b: State)
    requires env.Ok() && b.win == WindowOf(PLAIN) && Peek(b.cnt, PLAIN) == 1
    ensures RunRecords(b, [Record(Mem(env.at), Pc)]) == Jump(b.(pc := Peek(b.mem, env.at / 4)))
  {
    RecordOnce(b, PLAIN, Record(Mem(env.at), Pc));
  }

  lemma PcRead(c: State, blk: Block)
    requires blk.Block? && blk.bank == PLAIN && blk.src == Acc && blk.dst == Pc && blk.count == 1 && !blk.dyn
    ensures ExecBlock(c, blk) == c.(pc := AccRead(c))
  {
    BurstOnce(c, Acc, Pc, BankMode(PLAIN));
  }

  /** A deferred read of %pc goes through at, so the jump leaves the machine canonical. */
  lemma ReadThroughAt(env: Env, st: PState, f: Flags, c: State, b: State, blk: Block)
    requires Rel(env, st, f, c, b) && blk.Block? && blk.Ok() && BlockOk(env, st, f, c, blk)
    requires Deferred(st, ShapeOf(blk)) && blk.dst == Pc
    ensures Matches(env, st, f, c, blk, RunRecords(b, EmitAll(env, [StageRead, Switch(PLAIN), StagePush], blk)))
  {
    hide RunRecords, Burst, Move, WalkOk;
    var r1, r3 := Record(Acc, Mem(env.at)), Record(Mem(env.at), Pc);
    var sw := EmitAll(env, [Switch(PLAIN)], blk);
    var f1 := Flags(false, false, f.pend);
    var b1 := StageIn(env, st, f, c, b);
    assert SwitchPrims(SNIFF, PLAIN) == [Switch(PLAIN)];
    SwitchStep(env, SNIFF, st, f1, c, b1, PLAIN, blk);
    var b2 := RunRecords(b1, sw).s;
    StageKept(env, b1, b2, blk);
    StageOut(env, b2);
    PcRead(c, blk);
    Chain3(b, r1, sw, r3, b1, b2);
    assert EmitAll(env, [StageRead, Switch(PLAIN), StagePush], blk) == [r1] + sw + [r3];
  }

  /** The switch record leaves memory, the counts and %pc alone. */
  lemma StageKept(env: Env, b1: State, b2: State, blk: Block)
    requires env.Ok() && PoolOk(env, b1.mem) && b1.win == WindowOf(SNIFF) && Peek(b1.cnt, SNIFF) == 1
    requires RunRecords(b1, EmitAll(env, [Switch(PLAIN)], blk)) == Fall(b2)
    ensures b2 == b1.(acc := b2.acc, win := WindowOf(PLAIN))
  {
    var r := Record(Mem(env.lits[WindowOf(PLAIN)]), Window);
    assert EmitAll(env, [Switch(PLAIN)], blk) == [r];
    RecordOnce(b1, SNIFF, r);
    LiteralRead(env, b1, WindowOf(PLAIN));
  }

  lemma Chain3(b: State, r1: Record, rs: seq<Record>, r3: Record, b1: State, b2: State)
    requires RunRecords(b, [r1]) == Fall(b1) && RunRecords(b1, rs) == Fall(b2)
    ensures RunRecords(b, [r1] + rs + [r3]) == RunRecords(b2, [r3])
  {
    RunRecordsSplit(b, [r1], rs);
    RunRecordsSplit(b, [r1] + rs, [r3]);
  }

  /** One block: the planned records do what the block does. */
  lemma BlockRefines(env: Env, st: PState, f: Flags, c: State, b: State, blk: Block)
    requires Rel(env, st, f, c, b) && blk.Block? && blk.Ok() && BlockOk(env, st, f, c, blk)
    ensures Matches(env, st, f, c, blk, RunRecords(b, Records(env, st, blk)))
  {
    var s := ShapeOf(blk);
    PlanPrims(env, st, s);
    if Deferred(st, s) {
      if blk.dst == Pc {
        ReadThroughAt(env, st, f, c, b, blk);
      } else {
        ReadInPlace(env, st, f, c, b, blk);
        assert EmitAll(env, [Rec], blk) == [Record(blk.src, blk.dst)];
      }
    } else {
      var pre := (if NeedsCount(st, s) then SwitchPrims(st.bank, PLAIN) + [SetCount(s.bank, s.Times())] else []) +
                 SwitchPrims(if NeedsCount(st, s) then PLAIN else st.bank, s.bank);
      assert Plan(st, s).prims == pre + [Rec];
      Approach(env, st, f, c, b, blk);
      EmitAllSplit(env, pre, [Rec], blk);
      assert EmitAll(env, [Rec], blk) == [Record(blk.src, blk.dst)];
      hide RunRecords, Matches, BlockOk, RelAt;
      LastRecord(env, st, f, c, RunRecords(b, EmitAll(env, pre, blk)).s, blk);
      RunRecordsSplit(b, EmitAll(env, pre, blk), [Record(blk.src, blk.dst)]);
    }
  }

  // ----- instructions and programs -----

  ghost predicate LitsFor(env: Env, bs: seq<Block>)
    requires AllOk(bs)
  {
    forall i :: 0 <= i < |bs| ==> ShapeOf(bs[i]).Times() in env.lits
  }

  /** The records of a block sequence, from planner state st. */
  function RecordsAll(env: Env, st: PState, bs: seq<Block>): seq<Record>
    requires env.Ok() && st.Valid() && AllOk(bs)
    requires forall i :: 0 <= i < |bs| ==> ShapeOf(bs[i]).Times() in env.lits
    decreases |bs|
  {
    if bs == [] then [] else Records(env, st, bs[0]) + RecordsAll(env, Plan(st, ShapeOf(bs[0])).st, bs[1..])
  }

  function StateAfter(st: PState, bs: seq<Block>): (r: PState)
    requires st.Valid() && AllOk(bs)
    ensures r.Valid()
    decreases |bs|
  {
    if bs == [] then st else StateAfter(Plan(st, ShapeOf(bs[0])).st, bs[1..])
  }

  /** The sequence obeys the mode-domain rules along its own (classic) run. */
  ghost predicate Obeys(env: Env, st: PState, f: Flags, c: State, bs: seq<Block>)
    requires st.Valid() && AllOk(bs)
    decreases |bs|
  {
    bs == [] || bs[0].HaltBlock? ||
    (BlockOk(env, st, f, c, bs[0]) &&
     (bs[0].dst == Pc ||
      Obeys(env, Plan(st, ShapeOf(bs[0])).st, After(env, st, f, bs[0]), ExecBlock(c, bs[0]), bs[1..])))
  }

  /** What still agrees where the run leaves the sequence. */
  ghost function FlagsAfter(env: Env, st: PState, f: Flags, c: State, bs: seq<Block>): Flags
    requires st.Valid() && AllOk(bs)
    decreases |bs|
  {
    if bs == [] || bs[0].HaltBlock? then f
    else if bs[0].dst == Pc then After(env, st, f, bs[0])
    else FlagsAfter(env, Plan(st, ShapeOf(bs[0])).st, After(env, st, f, bs[0]), ExecBlock(c, bs[0]), bs[1..])
  }

  /** The same exit on both sides: states related under st on a fall-through, canonical after a
      jump, and memory agreeing at a halt. */
  ghost predicate SameExit(env: Env, st: PState, f: Flags, oc: Outcome, ob: Outcome) {
    match (oc, ob)
    case (Fall(c), Fall(b)) => Rel(env, st, f, c, b)
    case (Jump(c), Jump(b)) => Rel(env, CANON, f, c, b)
    case (Stop(c), Stop(b)) => Sim(env, f.live, f.atOk, c, b)
    case _ => false
  }

  lemma JumpIsCanonical(env: Env, st: PState, f: Flags, c: State, b: State)
    requires Rel(env, st, f, c, b) && st.bank == PLAIN && CleanCounts(st)
    ensures Rel(env, CANON, f, c, b)
  {
  }

  lemma PlanPcKeeps(st: PState, blk: Block)
    requires st.Valid() && blk.Block? && blk.Ok() && blk.dst == Pc && blk.bank == PLAIN && blk.count == 1 && !blk.dyn
    requires CleanCounts(st)
    ensures Plan(st, ShapeOf(blk)).st == st.(bank := PLAIN)
  {
    assert !st.Stale(PLAIN, 1);
  }

  /** Every block sequence that obeys the rules has the same meaning in both encodings. */
  lemma {:induction false} SequenceRefines(env: Env, st: PState, f: Flags, c: State, b: State, bs: seq<Block>)
    requires Rel(env, st, f, c, b) && AllOk(bs) && LitsFor(env, bs) && Obeys(env, st, f, c, bs)
    ensures SameExit(env, StateAfter(st, bs), FlagsAfter(env, st, f, c, bs),
                     RunBlocks(c, bs), RunRecords(b, RecordsAll(env, st, bs)))
    decreases |bs|
  {
    hide Sim, BlockOk, Burst;
    if bs == [] {
    } else {
      var blk, st', rest := bs[0], Plan(st, ShapeOf(bs[0])).st, bs[1..];
      var rs := Records(env, st, blk);
      RunRecordsSplit(b, rs, RecordsAll(env, st', rest));
      if blk.HaltBlock? {
        assert rs == [HaltRecord];
      } else {
        BlockRefines(env, st, f, c, b, blk);
        var o := RunRecords(b, rs);
        hide RunRecords, Records, Plan;
        if blk.dst == Pc {
          PcBlock(env, st, f, c, blk);
          JumpIsCanonical(env, st', After(env, st, f, blk), ExecBlock(c, blk), o.s);
        } else {
          SequenceRefines(env, st', After(env, st, f, blk), ExecBlock(c, blk), o.s, rest);
        }
      }
    }
  }

  lemma PcBlock(env: Env, st: PState, f: Flags, c: State, blk: Block)
    requires st.Valid() && blk.Block? && blk.Ok() && BlockOk(env, st, f, c, blk) && blk.dst == Pc
    ensures blk.Times(c) == 1 && Plan(st, ShapeOf(blk)).st.bank == PLAIN && CleanCounts(Plan(st, ShapeOf(blk)).st)
  {
    PlanPcKeeps(st, blk);
  }

  // ----- the sync at an instruction boundary -----

  lemma {:induction false} SyncCountsStep(env: Env, st: PState, f: Flags, c: State, b: State, n: nat)
    requires RelAt(env, PLAIN, st, f, c, b) && n <= BANKS
    ensures forall i :: 0 <= i < |SyncCounts(st, n)| ==> PrimOk(env, SyncCounts(st, n)[i])
    ensures var o := RunRecords(b, EmitAll(env, SyncCounts(st, n), HaltBlock));
            o.Fall? && RelAt(env, PLAIN, Synced(st, n), f, c, o.s)
  {
    hide Sim, RunRecords;
    if n == 0 {
      assert EmitAll(env, SyncCounts(st, 0), HaltBlock) == [];
      assert RunRecords(b, []) == Fall(b) by { EmptyRun(b); }
    } else {
      SyncCountsStep(env, st, f, c, b, n - 1);
      var head := SyncCounts(st, n - 1);
      if st.Stale(n - 1, 1) {
        var b' := RunRecords(b, EmitAll(env, head, HaltBlock)).s;
        assert n - 1 !in f.pend;
        CountStep(env, Synced(st, n - 1), f, c, b', n - 1, 1, HaltBlock);
        EmitAllSplit(env, head, [SetCount(n - 1, 1)], HaltBlock);
        RunRecordsSplit(b, EmitAll(env, head, HaltBlock), EmitAll(env, [SetCount(n - 1, 1)], HaltBlock));
      } else {
        assert SyncCounts(st, n) == head;
      }
    }
  }

  lemma EmptyRun(b: State)
    ensures RunRecords(b, []) == Fall(b)
  {
  }

  /** The planner state once the banks below n are back at count 1. */
  function Synced(st: PState, n: nat): (r: PState)
    requires st.Valid() && n <= BANKS
    ensures r.Valid() && r.bank == st.bank
    ensures forall k :: 0 <= k < BANKS ==>
                          r.cnt[k] == (if k < n then 1 else st.cnt[k]) && r.dirty[k] == (k >= n && st.dirty[k])
  {
    if n == 0 then st
    else var p := Synced(st, n - 1); p.(cnt := p.cnt[n - 1 := 1], dirty := p.dirty[n - 1 := false])
  }

  lemma SyncPrims(env: Env, st: PState)
    requires env.Ok() && st.Valid()
    ensures forall i :: 0 <= i < |Sync(st)| ==> PrimOk(env, Sync(st)[i])
  {
    SyncCountPrims(env, st, BANKS);
  }

  lemma {:induction false} SyncCountPrims(env: Env, st: PState, n: nat)
    requires env.Ok() && st.Valid() && n <= BANKS
    ensures forall i :: 0 <= i < |SyncCounts(st, n)| ==> PrimOk(env, SyncCounts(st, n)[i])
  {
    if n > 0 { SyncCountPrims(env, st, n - 1); }
  }

  /** The sync records restore canonical state and change nothing a program can see. */
  lemma SyncRefines(env: Env, st: PState, f: Flags, c: State, b: State)
    requires Rel(env, st, f, c, b)
    ensures forall i :: 0 <= i < |Sync(st)| ==> PrimOk(env, Sync(st)[i])
    ensures var o := RunRecords(b, EmitAll(env, Sync(st), HaltBlock));
            o.Fall? && Rel(env, CANON, f.(live := f.live && st.bank == PLAIN), c, o.s)
  {
    hide Sim, RunRecords, SyncCounts;
    SyncPrims(env, st);
    var sw, counts := SwitchPrims(st.bank, PLAIN), SyncCounts(st, BANKS);
    SwitchStep(env, st.bank, st, f, c, b, PLAIN, HaltBlock);
    var b1 := RunRecords(b, EmitAll(env, sw, HaltBlock)).s;
    var f1 := f.(live := f.live && st.bank == PLAIN);
    SyncCountsStep(env, st, f1, c, b1, BANKS);
    EmitAllSplit(env, sw, counts, HaltBlock);
    RunRecordsSplit(b, EmitAll(env, sw, HaltBlock), EmitAll(env, counts, HaltBlock));
    var st2 := Synced(st, BANKS);
    assert st2.cnt == CANON.cnt && st2.dirty == CANON.dirty;
  }

  // ----- whole programs -----

  ghost predicate InstrsOk(env: Env, prog: seq<seq<Block>>) {
    forall i :: 0 <= i < |prog| ==> AllOk(prog[i]) && LitsFor(env, prog[i])
  }

  /** Classic: the instructions' blocks one after the other. */
  ghost function RunClassic(c: State, prog: seq<seq<Block>>): Outcome
    requires forall i :: 0 <= i < |prog| ==> AllOk(prog[i])
    decreases |prog|
  {
    if prog == [] then Fall(c)
    else match RunBlocks(c, prog[0])
      case Fall(c') => RunClassic(c', prog[1..])
      case o => o
  }

  /** Compact: every instruction planned from canonical state and synced behind. */
  ghost function CompactText(env: Env, prog: seq<seq<Block>>): seq<Record>
    requires env.Ok() && InstrsOk(env, prog)
    decreases |prog|
  {
    if prog == [] then []
    else InstrRecords(env, prog[0]) + CompactText(env, prog[1..])
  }

  ghost function InstrRecords(env: Env, bs: seq<Block>): seq<Record>
    requires env.Ok() && AllOk(bs) && LitsFor(env, bs)
  {
    SyncPrims(env, StateAfter(CANON, bs));
    RecordsAll(env, CANON, bs) + EmitAll(env, Sync(StateAfter(CANON, bs)), HaltBlock)
  }

  ghost function InstrFlags(env: Env, f: Flags, c: State, bs: seq<Block>): Flags
    requires AllOk(bs)
  {
    var g := FlagsAfter(env, CANON, f, c, bs);
    if RunBlocks(c, bs).Fall? then g.(live := g.live && StateAfter(CANON, bs).bank == PLAIN) else g
  }

  /** Every instruction obeys the rules when the classic run reaches it. */
  ghost predicate ProgramObeys(env: Env, f: Flags, c: State, prog: seq<seq<Block>>)
    requires InstrsOk(env, prog)
    decreases |prog|
  {
    prog == [] ||
    (Obeys(env, CANON, f, c, prog[0]) &&
     var o := RunBlocks(c, prog[0]);
     o.Fall? ==> ProgramObeys(env, InstrFlags(env, f, c, prog[0]), o.s, prog[1..]))
  }

  ghost function ProgramFlags(env: Env, f: Flags, c: State, prog: seq<seq<Block>>): Flags
    requires InstrsOk(env, prog)
    decreases |prog|
  {
    if prog == [] then f
    else
      var o, g := RunBlocks(c, prog[0]), InstrFlags(env, f, c, prog[0]);
      if o.Fall? then ProgramFlags(env, g, o.s, prog[1..]) else g
  }

  lemma InstrRefines(env: Env, f: Flags, c: State, b: State, bs: seq<Block>)
    requires Rel(env, CANON, f, c, b) && AllOk(bs) && LitsFor(env, bs) && Obeys(env, CANON, f, c, bs)
    ensures SameExit(env, CANON, InstrFlags(env, f, c, bs), RunBlocks(c, bs), RunRecords(b, InstrRecords(env, bs)))
  {
    hide Sim, RunRecords, RunBlocks, Sync, RecordsAll;
    SequenceRefines(env, CANON, f, c, b, bs);
    var st, o := StateAfter(CANON, bs), RunRecords(b, RecordsAll(env, CANON, bs));
    SyncPrims(env, st);
    RunRecordsSplit(b, RecordsAll(env, CANON, bs), EmitAll(env, Sync(st), HaltBlock));
    if o.Fall? {
      SyncRefines(env, st, FlagsAfter(env, CANON, f, c, bs), RunBlocks(c, bs).s, o.s);
    }
  }

  /** Compact refines classic: from related canonical states, every straight-line program that
      obeys the mode-domain rules leaves both machines the same way, with the same memory and
      %pc up to the dead accumulator, at and null, and the bank machine canonical again. */
  lemma {:induction false} ProgramRefines(env: Env, f: Flags, c: State, b: State, prog: seq<seq<Block>>)
    requires Rel(env, CANON, f, c, b) && InstrsOk(env, prog) && ProgramObeys(env, f, c, prog)
    ensures SameExit(env, CANON, ProgramFlags(env, f, c, prog), RunClassic(c, prog),
              RunRecords(b, CompactText(env, prog)))
    decreases |prog|
  {
    hide Sim, RunBlocks, InstrRecords, Obeys;
    if prog == [] {
    } else {
      InstrRefines(env, f, c, b, prog[0]);
      RunRecordsSplit(b, InstrRecords(env, prog[0]), CompactText(env, prog[1..]));
      var oc, ob := RunBlocks(c, prog[0]), RunRecords(b, InstrRecords(env, prog[0]));
      hide RunRecords;
      if oc.Fall? {
        ProgramRefines(env, InstrFlags(env, f, c, prog[0]), oc.s, ob.s, prog[1..]);
      }
    }
  }
}
