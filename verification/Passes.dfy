/** The two assembler passes over the planner: pass 1 sizes instructions and places the
    labels inside them, pass 2 emits from one planner state carried across the program. */
module Passes {
  import opened Words
  import opened Planner
  import Compact

  class CState {
    var bank: int
    var cnt: seq<Word>
    var dirty: seq<bool>

    ghost function Abs(): PState
      reads this
    {
      PState(bank, cnt, dirty)
    }

    constructor ()
      ensures Abs() == CANON
    {
      bank := PLAIN;
      cnt := [1, 1, 1, 1, 1, 1, 1];
      dirty := [false, false, false, false, false, false, false];
    }

    /** Plans a switch record into bank b. */
    method SwitchTo(b: int, ps: seq<Prim>) returns (qs: seq<Prim>)
      modifies this`bank
      ensures bank == b && qs == ps + SwitchPrims(old(bank), b)
    {
      if bank == b { return ps; }
      qs := ps + [Switch(b)];
      bank := b;
    }

    /** Plans the records of one block. */
    method PlanBlock(s: Shape) returns (ps: seq<Prim>)
      requires Abs().Valid() && s.Valid()
      modifies this
      ensures Abs() == Plan(old(Abs()), s).st && ps == Plan(old(Abs()), s).prims
    {
      hide PlanMove;
      if s.halt { return [Halt]; }
      var k := if s.count == 0 then 1 else s.count;
      if s.srcSniff && bank == SNIFF && s.bank == PLAIN && k == 1 && !s.dyn && cnt[SNIFF] == 1 && !dirty[SNIFF] {
        if s.dstPc {
          ps := SwitchTo(PLAIN, [StageRead]);
          return ps + [StagePush];
        }
        return [Rec];
      }
      ps := PlanOnBank(s, k);
    }

    /** The tail of PlanBlock: count-set, switch, the record itself and the auto-return. */
    method PlanOnBank(s: Shape, k: Word) returns (ps: seq<Prim>)
      requires Abs().Valid() && s.Valid() && k == s.Times()
      modifies this
      ensures Abs() == PlanMove(old(Abs()), s).st && ps == PlanMove(old(Abs()), s).prims
    {
      ps := [];
      if !s.dyn && s.cntAfter == 0 && (cnt[s.bank] != k || dirty[s.bank]) {
        ps := SwitchTo(PLAIN, ps);
        ps := ps + [SetCount(s.bank, k)];
        cnt, dirty := cnt[s.bank := k], dirty[s.bank := false];
      }
      ps := SwitchTo(s.bank, ps);
      ps := ps + [Rec];
      if s.dyn {
        dirty := dirty[s.bank := true];
      } else if s.cntAfter != 0 {
        cnt, dirty := cnt[s.bank := s.cntAfter], dirty[s.bank := false];
      }
      if AutoReturn(s.bank) {
        bank := PLAIN;
      }
    }

    /** Whether any bank's count has left its canonical value. */
    method NeedCount() returns (need: bool)
      requires Abs().Valid()
      ensures need <==> Abs().cnt != CANON.cnt || Abs().dirty != CANON.dirty
    {
      need := false;
      for b := 0 to BANKS
        invariant need ==> cnt != CANON.cnt || dirty != CANON.dirty
        invariant !need ==> forall i :: 0 <= i < b ==> cnt[i] == 1 && !dirty[i]
      {
        if cnt[b] != 1 || dirty[b] {
          need := true;
          assert cnt[b] != CANON.cnt[b] || dirty[b] != CANON.dirty[b];
        }
      }
    }

    /** Sets every stale count back to 1, in bank order. */
    method ResetCounts(ps: seq<Prim>) returns (qs: seq<Prim>)
      requires Abs().Valid()
      modifies this`cnt, this`dirty
      ensures cnt == CANON.cnt && dirty == CANON.dirty && qs == ps + SyncCounts(old(Abs()), BANKS)
    {
      ghost var was := Abs();
      qs := ps;
      for b := 0 to BANKS
        invariant |cnt| == BANKS && |dirty| == BANKS
        invariant forall i :: 0 <= i < b ==> cnt[i] == 1 && !dirty[i]
        invariant forall i :: b <= i < BANKS ==> cnt[i] == was.cnt[i] && dirty[i] == was.dirty[i]
        invariant qs == ps + SyncCounts(was, b)
      {
        if cnt[b] != 1 || dirty[b] {
          qs := qs + [SetCount(b, 1)];
          cnt, dirty := cnt[b := 1], dirty[b := false];
        }
      }
    }

    /** Plans the records that restore canonical state. */
    method PlanSync() returns (ps: seq<Prim>)
      requires Abs().Valid()
      modifies this
      ensures Abs() == CANON && ps == Sync(old(Abs()))
    {
      hide SyncCounts;
      ps := [];
      ghost var was := Abs();
      var need := NeedCount();
      if need {
        ps := SwitchTo(PLAIN, ps);
        SyncCountsBank(was, Abs(), BANKS);
        ps := ResetCounts(ps);
      } else {
        NothingStale(was, BANKS);
      }
      ps := SwitchTo(PLAIN, ps);
    }
  }

  /** The count-sets depend on the counts alone. */
  lemma {:induction false} SyncCountsBank(st: PState, st': PState, n: nat)
    requires st.Valid() && st'.Valid() && st.cnt == st'.cnt && st.dirty == st'.dirty && n <= BANKS
    ensures SyncCounts(st, n) == SyncCounts(st', n)
  {
    if n > 0 { SyncCountsBank(st, st', n - 1); }
  }

  // ----- pass 1: sizes -----

  lemma {:induction false} PlanAllSnoc(st: PState, shapes: seq<Shape>, i: nat)
    requires st.Valid() && AllValid(shapes) && i < |shapes|
    ensures PlanAll(st, shapes[..i + 1]).st == Plan(PlanAll(st, shapes[..i]).st, shapes[i]).st
    ensures PlanAll(st, shapes[..i + 1]).prims ==
            PlanAll(st, shapes[..i]).prims + Plan(PlanAll(st, shapes[..i]).st, shapes[i]).prims
    decreases i
  {
    hide Plan;
    if i == 0 {
      assert shapes[..1] == [shapes[0]] && shapes[..1][1..] == [] && shapes[..0] == [];
    } else {
      PlanAllSnoc(Plan(st, shapes[0]).st, shapes[1..], i - 1);
      assert shapes[..i + 1][1..] == shapes[1..][..i] && shapes[..i][1..] == shapes[1..][..i - 1];
    }
  }

  /** Sizes a shape prefix in records; generated labels are placed by it. */
  method PlanPrefix(shapes: seq<Shape>) returns (n: nat)
    requires AllValid(shapes)
    ensures n == |PlanAll(CANON, shapes).prims|
  {
    hide Plan;
    var st := new CState();
    n := 0;
    for i := 0 to |shapes|
      invariant st.Abs() == PlanAll(CANON, shapes[..i]).st && n == |PlanAll(CANON, shapes[..i]).prims|
    {
      PlanAllSnoc(CANON, shapes, i);
      var ps := st.PlanBlock(shapes[i]);
      n := n + |ps|;
    }
    assert shapes[..|shapes|] == shapes;
  }

  /** Sizes a whole instruction in records. */
  method PlanCount(shapes: seq<Shape>) returns (n: nat)
    requires AllValid(shapes)
    ensures n == |Instr(shapes)|
  {
    hide Plan, Sync;
    var st := new CState();
    n := 0;
    for i := 0 to |shapes|
      invariant st.Abs() == PlanAll(CANON, shapes[..i]).st && n == |PlanAll(CANON, shapes[..i]).prims|
    {
      PlanAllSnoc(CANON, shapes, i);
      var ps := st.PlanBlock(shapes[i]);
      n := n + |ps|;
    }
    assert shapes[..|shapes|] == shapes;
    var ps := st.PlanSync();
    n := n + |ps|;
  }

  predicate Payload(p: Prim) {
    p == Rec || p == Halt || p == StageRead
  }

  predicate FirstPayload(ps: seq<Prim>, n: nat) {
    n < |ps| && Payload(ps[n]) && forall i :: 0 <= i < n ==> !Payload(ps[i])
  }

  /** The offset of an instruction's first payload record: the record that block-field
      addressing must reach. */
  method PlanPayloadDelta(shapes: seq<Shape>) returns (delta: nat)
    requires AllValid(shapes)
    ensures shapes == [] ==> delta == 0
    ensures shapes != [] ==> delta % 8 == 0 && FirstPayload(Instr(shapes), delta / 8)
  {
    hide Plan, Instr, Payload;
    if shapes == [] { return 0; }
    var st := new CState();
    var ps := st.PlanBlock(shapes[0]);
    PlanHasPayload(CANON, shapes[0]);
    FirstBlock(shapes);
    var n := 0;
    while !Payload(ps[n])
      invariant n < |ps| && (forall m :: 0 <= m < n ==> !Payload(ps[m])) && exists m :: 0 <= m < |ps| && Payload(ps[m])
      decreases |ps| - n
    {
      n := n + 1;
    }
    return 8 * n;
  }

  /** An instruction begins with the records of its first block. */
  lemma FirstBlock(shapes: seq<Shape>)
    requires AllValid(shapes) && shapes != []
    ensures var ps := Plan(CANON, shapes[0]).prims;
            |ps| <= |Instr(shapes)| && forall n :: 0 <= n < |ps| ==> Instr(shapes)[n] == ps[n]
  {
    hide Plan;
    PlanAllSnoc(CANON, shapes, 0);
    PlanPrefixOf(shapes, 1);
  }

  /** Every block contributes a payload record. */
  lemma PlanHasPayload(st: PState, s: Shape)
    requires st.Valid() && s.Valid()
    ensures exists m :: 0 <= m < |Plan(st, s).prims| && Payload(Plan(st, s).prims[m])
  {
    var ps := Plan(st, s).prims;
    if Deferred(st, s) || s.halt {
      assert Payload(ps[0]);
    } else {
      assert Payload(ps[|ps| - 1]);
    }
  }

  /** The plan of a prefix of the blocks is a prefix of the instruction. */
  lemma {:induction false} PlanPrefixOf(shapes: seq<Shape>, i: nat)
    requires AllValid(shapes) && i <= |shapes|
    ensures PlanAll(CANON, shapes[..i]).prims <= Instr(shapes)
    decreases |shapes| - i
  {
    if i == |shapes| {
      assert shapes[..i] == shapes;
    } else {
      PlanAllSnoc(CANON, shapes, i);
      PlanPrefixOf(shapes, i + 1);
    }
  }

  // ----- pass 2: emission from carried state -----

  function Flatten(prog: seq<seq<Shape>>): seq<Prim>
    requires forall i :: 0 <= i < |prog| ==> AllValid(prog[i])
    decreases |prog|
  {
    if prog == [] then [] else Flatten(prog[..|prog| - 1]) + Instr(prog[|prog| - 1])
  }

  /** The pass-2 record emitter; it keeps one planner state for the whole program. */
  class Emitter {
    var st: CState
    var text: seq<Prim>
    var n: nat

    constructor ()
      ensures fresh(st) && st.Abs() == CANON && text == [] && n == 0
    {
      st := new CState();
      text := [];
      n := 0;
    }

    method EmitPrims(ps: seq<Prim>)
      modifies this`text, this`n
      ensures text == old(text) + ps && n == old(n) + |ps|
    {
      for i := 0 to |ps|
        invariant text == old(text) + ps[..i] && n == old(n) + i
      {
        text := text + [ps[i]];
        n := n + 1;
      }
      assert ps[..|ps|] == ps;
    }

    /** Converts one block; its shape is taken from its pointers. */
    method Block(b: Compact.Block)
      requires st.Abs().Valid() && b.Banked()
      modifies this`text, this`n, st
      ensures var p := Plan(old(st.Abs()), Compact.ShapeOf(b));
              st.Abs() == p.st && text == old(text) + p.prims && n == old(n) + |p.prims|
    {
      var ps := st.PlanBlock(Compact.ShapeOf(b));
      EmitPrims(ps);
    }

    /** Syncs, and checks the size against the pass-1 prediction. */
    method EndInstr(predicted: nat) returns (ok: bool)
      requires st.Abs().Valid()
      modifies this`text, this`n, st
      ensures st.Abs() == CANON
      ensures text == old(text) + Sync(old(st.Abs()))
      ensures ok <==> old(n) + |Sync(old(st.Abs()))| == predicted
      ensures ok ==> n == 0
    {
      var ps := st.PlanSync();
      EmitPrims(ps);
      if n != predicted { return false; }
      n := 0;
      ok := true;
    }
  }

  function AllShapes(prog: seq<seq<Compact.Block>>): (ss: seq<seq<Shape>>)
    requires forall i :: 0 <= i < |prog| ==> Compact.AllBanked(prog[i])
    ensures |ss| == |prog| && forall i :: 0 <= i < |prog| ==> AllValid(ss[i]) && ss[i] == Compact.Shapes(prog[i])
  {
    seq(|prog|, i requires 0 <= i < |prog| => Compact.Shapes(prog[i]))
  }

  /** Pass 2: emission from one carried planner state, with the size check. */
  method Emit(prog: seq<seq<Compact.Block>>, crecs: seq<nat>) returns (ok: bool, text: seq<Prim>)
    requires |crecs| == |prog| && forall i :: 0 <= i < |prog| ==> Compact.AllBanked(prog[i])
    ensures ok <==> forall j :: 0 <= j < |prog| ==> crecs[j] == |Instr(Compact.Shapes(prog[j]))|
    ensures ok ==> text == Flatten(AllShapes(prog))
  {
    hide Instr;
    ghost var ss := AllShapes(prog);
    var e := new Emitter();
    for j := 0 to |prog|
      invariant fresh(e) && fresh(e.st) && e.st.Abs() == CANON && e.n == 0
      invariant e.text == Flatten(ss[..j])
      invariant forall i :: 0 <= i < j ==> crecs[i] == |Instr(ss[i])|
    {
      FlattenSnoc(ss, j);
      var good := EmitInstr(e, prog[j], crecs[j]);
      if !good {
        assert crecs[j] != |Instr(Compact.Shapes(prog[j]))|;
        return false, e.text;
      }
    }
    assert ss[..|prog|] == ss;
    return true, e.text;
  }

  method EmitInstr(e: Emitter, bs: seq<Compact.Block>, predicted: nat) returns (ok: bool)
    requires e.st.Abs() == CANON && e.n == 0 && Compact.AllBanked(bs)
    modifies e`text, e`n, e.st
    ensures ok <==> predicted == |Instr(Compact.Shapes(bs))|
    ensures e.text == old(e.text) + Instr(Compact.Shapes(bs))
    ensures e.st.Abs() == CANON && (ok ==> e.n == 0)
  {
    hide Plan, Sync;
    ghost var shapes := Compact.Shapes(bs);
    ghost var head := e.text;
    for i := 0 to |bs|
      invariant e.st.Abs() == PlanAll(CANON, shapes[..i]).st
      invariant e.text == head + PlanAll(CANON, shapes[..i]).prims && e.n == |PlanAll(CANON, shapes[..i]).prims|
    {
      PlanAllSnoc(CANON, shapes, i);
      e.Block(bs[i]);
    }
    assert shapes[..|shapes|] == shapes;
    ok := e.EndInstr(predicted);
  }

  lemma FlattenSnoc(prog: seq<seq<Shape>>, j: nat)
    requires forall i :: 0 <= i < |prog| ==> AllValid(prog[i])
    requires j < |prog|
    ensures Flatten(prog[..j + 1]) == Flatten(prog[..j]) + Instr(prog[j])
  {
    assert prog[..j + 1][..j] == prog[..j];
  }

  /** A label placed after the first m blocks of instruction j lands on the first record of
      what follows: pass 1's prefix size from canonical state is pass 2's position. */
  lemma LabelOffset(prog: seq<seq<Shape>>, j: nat, m: nat)
    requires forall i :: 0 <= i < |prog| ==> AllValid(prog[i])
    requires j < |prog| && m <= |prog[j]|
    ensures AllValid(prog[j][..m])
    ensures Flatten(prog[..j]) + PlanAll(CANON, prog[j][..m]).prims <= Flatten(prog[..j + 1])
  {
    hide PlanAll, Instr;
    FlattenSnoc(prog, j);
    PlanPrefixOf(prog[j], m);
    var p, q := PlanAll(CANON, prog[j][..m]).prims, Instr(prog[j]);
    assert q == p + q[|p|..];
    assert Flatten(prog[..j]) + q == Flatten(prog[..j]) + p + q[|p|..];
  }

  // ----- count-sets on the bank they set -----

  predicate SelfCount(ps: seq<Prim>) {
    exists i :: 0 <= i < |ps| && ps[i].SetCount? && ps[i].bank == BankAt(PLAIN, ps, i)
  }

  /** A plain-bank block the encoding can carry: one transfer, fixed at assembly time. */
  predicate PlainOnce(s: Shape) {
    s.halt || s.bank != PLAIN || (s.Times() == 1 && !s.dyn)
  }

  predicate SetsPlain(ps: seq<Prim>) {
    exists i :: 0 <= i < |ps| && ps[i].SetCount? && ps[i].bank == PLAIN
  }

  lemma SetsPlainSplit(ps: seq<Prim>, qs: seq<Prim>)
    ensures SetsPlain(ps + qs) <==> SetsPlain(ps) || SetsPlain(qs)
  {
    if SetsPlain(ps) {
      var i :| 0 <= i < |ps| && ps[i].SetCount? && ps[i].bank == PLAIN;
      assert (ps + qs)[i] == ps[i];
    }
    if SetsPlain(qs) {
      var i :| 0 <= i < |qs| && qs[i].SetCount? && qs[i].bank == PLAIN;
      assert (ps + qs)[|ps| + i] == qs[i];
    }
  }

  /** Whether the plain bank's count has ever left 1 is exactly whether a count-set named it. */
  lemma PlanSetsPlain(st: PState, s: Shape)
    requires st.Valid() && s.Valid() && s.cntAfter == 0
    requires !st.Stale(PLAIN, 1)
    ensures SetsPlain(Plan(st, s).prims) <==> !s.halt && s.bank == PLAIN && s.Times() != 1 && !s.dyn
    ensures Plan(st, s).st.Stale(PLAIN, 1) <==> !PlainOnce(s)
  {
    var ps := Plan(st, s).prims;
    if !s.halt && !Deferred(st, s) && NeedsCount(st, s) {
      var a := SwitchPrims(st.bank, PLAIN);
      assert ps[|a|] == SetCount(s.bank, s.Times());
    }
  }

  lemma PlanKeepsStale(st: PState, s: Shape)
    requires st.Valid() && s.Valid() && s.cntAfter == 0 && st.Stale(PLAIN, 1)
    ensures Plan(st, s).st.Stale(PLAIN, 1) || SetsPlain(Plan(st, s).prims)
  {
    var ps := Plan(st, s).prims;
    if !s.halt && !Deferred(st, s) && NeedsCount(st, s) {
      var a := SwitchPrims(st.bank, PLAIN);
      assert ps[|a|] == SetCount(s.bank, s.Times());
    }
  }

  lemma {:induction false} PlanAllSetsPlain(st: PState, shapes: seq<Shape>)
    requires st.Valid() && AllValid(shapes) && forall i :: 0 <= i < |shapes| ==> shapes[i].cntAfter == 0
    ensures st.Stale(PLAIN, 1) ==> SetsPlain(PlanAll(st, shapes).prims) || PlanAll(st, shapes).st.Stale(PLAIN, 1)
    ensures !st.Stale(PLAIN, 1) ==>
              ((SetsPlain(PlanAll(st, shapes).prims) || PlanAll(st, shapes).st.Stale(PLAIN, 1)) <==>
               exists i :: 0 <= i < |shapes| && !PlainOnce(shapes[i]))
    decreases |shapes|
  {
    if shapes != [] {
      var p := Plan(st, shapes[0]);
      var rest := shapes[1..];
      PlanAllSetsPlain(p.st, rest);
      SetsPlainSplit(p.prims, PlanAll(p.st, rest).prims);
      if st.Stale(PLAIN, 1) {
        PlanKeepsStale(st, shapes[0]);
      } else {
        PlanSetsPlain(st, shapes[0]);
        assert forall i :: 0 <= i < |rest| ==> rest[i] == shapes[i + 1];
        if i :| 0 <= i < |shapes| && !PlainOnce(shapes[i]) {
          if i > 0 { assert !PlainOnce(rest[i - 1]); }
        }
      }
    }
  }

  lemma {:induction false} SyncSetsPlain(st: PState, n: nat)
    requires st.Valid() && 0 < n <= BANKS
    ensures SetsPlain(SyncCounts(st, n)) <==> st.Stale(PLAIN, 1)
  {
    var last := if st.Stale(n - 1, 1) then [SetCount(n - 1, 1)] else [];
    SetsPlainSplit(SyncCounts(st, n - 1), last);
    if n == 1 {
      if st.Stale(PLAIN, 1) { assert last[0] == SetCount(PLAIN, 1); }
    } else {
      SyncSetsPlain(st, n - 1);
    }
  }

  /** The planner writes a running bank's own count exactly when the program asks for a
      plain-bank block that repeats or takes its count at run time. */
  lemma SelfCountIff(shapes: seq<Shape>)
    requires AllValid(shapes) && forall i :: 0 <= i < |shapes| ==> shapes[i].cntAfter == 0
    ensures SelfCount(Instr(shapes)) <==> exists i :: 0 <= i < |shapes| && !PlainOnce(shapes[i])
  {
    hide PlanAll, SyncCounts;
    InstrSafe(shapes);
    var ps := Instr(shapes);
    assert SelfCount(ps) <==> SetsPlain(ps) by {
      if SelfCount(ps) {
        var i :| 0 <= i < |ps| && ps[i].SetCount? && ps[i].bank == BankAt(PLAIN, ps, i);
        assert PrimSafe(BankAt(PLAIN, ps, i), ps[i]);
      }
      if SetsPlain(ps) {
        var i :| 0 <= i < |ps| && ps[i].SetCount? && ps[i].bank == PLAIN;
        assert PrimSafe(BankAt(PLAIN, ps, i), ps[i]);
      }
    }
    var p := PlanAll(CANON, shapes);
    PlanAllSetsPlain(CANON, shapes);
    SetsPlainSplit(p.prims, Sync(p.st));
    SetsPlainSplit(SwitchPrims(p.st.bank, PLAIN), SyncCounts(p.st, BANKS));
    SyncSetsPlain(p.st, BANKS);
  }

  /** A repeated plain-bank move is such a program. */
  lemma SelfCountHappens()
    ensures SelfCount(Instr([Shape(PLAIN, 2, false, false, false, false, 0)]))
  {
    var shapes := [Shape(PLAIN, 2, false, false, false, false, 0)];
    assert !PlainOnce(shapes[0]);
    SelfCountIff(shapes);
  }
}
