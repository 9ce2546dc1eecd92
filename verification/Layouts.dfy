/** Where macros put their jump slots, and what the counted moves do in each encoding
    (host/dmaasm/dmaasm.go, host/dmaasm/emit.go). */
module Layouts {
  import opened Words
  import Bits
  import opened Core
  import opened Planner
  import opened Compact
  import opened Refinement
  import opened Macros
  import opened Meaning
  import opened Dispatch
  import opened Rules
  import Compare

  // ----- jump slots -----

  /** Pass 1 counts the records pass 2 emits, block by block. */
  lemma {:induction false} RecordsCounted(env: Env, st: PState, bs: seq<Block>)
    requires env.Ok() && st.Valid() && AllOk(bs) && LitsFor(env, bs)
    ensures |RecordsAll(env, st, bs)| == |PlanAll(st, Shapes(bs)).prims|
    ensures StateAfter(st, bs) == PlanAll(st, Shapes(bs)).st
    decreases |bs|
  {
    hide Plan, ShapeOf;
    if bs != [] {
      assert Shapes(bs)[1..] == Shapes(bs[1..]);
      RecordsCounted(env, Plan(st, ShapeOf(bs[0])).st, bs[1..]);
    }
  }

  lemma {:induction false} RecordsSplit(env: Env, st: PState, bs: seq<Block>, cs: seq<Block>)
    requires env.Ok() && st.Valid() && AllOk(bs) && LitsFor(env, bs) && AllOk(cs) && LitsFor(env, cs)
    ensures AllOk(bs + cs) && LitsFor(env, bs + cs)
    ensures RecordsAll(env, st, bs + cs) == RecordsAll(env, st, bs) + RecordsAll(env, StateAfter(st, bs), cs)
    ensures StateAfter(st, bs + cs) == StateAfter(StateAfter(st, bs), cs)
    decreases |bs|
  {
    hide Plan, ShapeOf, Records;
    if bs == [] {
      assert bs + cs == cs;
    } else {
      assert (bs + cs)[1..] == bs[1..] + cs;
      RecordsSplit(env, Plan(st, ShapeOf(bs[0])).st, bs[1..], cs);
    }
  }

  /** The planner follows the static check up to the jump. */
  lemma {:induction false} PassState(env: Env, m: Dom, bs: seq<Block>)
    requires env.Ok() && NoJump(bs) && Passes(env, m, bs)
    ensures AllOk(bs) && StateAfter(m.Planner(), bs) == DomAfter(env, m, bs).Planner()
    decreases |bs|
  {
    hide Allowed, DomNext, Plan, BlockOk, After;
    if bs != [] {
      StepPlans(env, m, bs[0]);
      PassState(env, DomNext(env, m, bs[0]), bs[1..]);
    }
  }

  lemma StepPlans(env: Env, m: Dom, b: Block)
    requires env.Ok() && Allowed(env, m, b)
    ensures b.Ok() && b.Block? && (b.dst != Pc ==> Plan(m.Planner(), ShapeOf(b)).st == DomNext(env, m, b).Planner())
  {
    StepMatches(env, m, State(map[], 0, 0, 0, 0, map[]), b);
  }

  /** A dispatch leaves the planner canonical. */
  lemma DispatchPlans(m: Dom)
    ensures Plan(m.Planner(), ShapeOf(Pl(Acc, Pc))).st == CANON
  {
  }

  lemma SlotPlans(l: Loc)
    requires Cell(l)
    ensures Plan(CANON, ShapeOf(Pl(l, Pc))) == Planned(CANON, [Rec])
  {
  }

  lemma {:induction false} SlotRecords(env: Env, x: Loc, y: Loc)
    requires env.Ok() && Cell(x) && Cell(y)
    ensures AllOk([Pl(x, Pc), Pl(y, Pc)]) && LitsFor(env, [Pl(x, Pc), Pl(y, Pc)])
    ensures RecordsAll(env, CANON, [Pl(x, Pc), Pl(y, Pc)]) == [Record(x, Pc), Record(y, Pc)]
    ensures StateAfter(CANON, [Pl(x, Pc), Pl(y, Pc)]) == CANON
  {
    var bs := [Pl(x, Pc), Pl(y, Pc)];
    SlotPlans(x);
    SlotPlans(y);
    assert bs[1..] == [Pl(y, Pc)] && bs[1..][1..] == [];
    PlanPrims(env, CANON, ShapeOf(bs[0])); PlanPrims(env, CANON, ShapeOf(bs[1]));
    assert Records(env, CANON, bs[0]) == [Record(x, Pc)] && Records(env, CANON, bs[1]) == [Record(y, Pc)];
    LastState(CANON, bs[1]);
    hide Plan, Records;
    assert RecordsAll(env, CANON, bs[1..]) == [Record(y, Pc)] + RecordsAll(env, CANON, []);
  }

  /** Behind a dispatch come exactly its two slots: record number P of the instruction is the first
      and P + 1 the second, where P is what pass 1 counts for the dispatch alone. */
  lemma {:induction false} SlotsPlaced(r: Regs, m: Dom, bs: seq<Block>, x: Word, y: Word)
    requires r.Ok() && !m.sniff && NoJump(bs) && Passes(r.env, m, bs + [Pl(Acc, Pc)]) && x in r.env.lits
    requires y in r.env.lits
    ensures var body := bs + [Pl(Acc, Pc)];
            && AllOk(body) && AllOk(body + SlotsM(r, x, y)) && LitsFor(r.env, body + SlotsM(r, x, y))
            && var p, rs := |PlanAll(CANON, Shapes(body)).prims|, InstrRecords(r.env, body + SlotsM(r, x, y));
               |rs| == p + 2 && rs[p] == Record(r.Lit(x), Pc) && rs[p + 1] == Record(r.Lit(y), Pc)
  {
    var b, slots := Pl(Acc, Pc), SlotsM(r, x, y);
    var body := bs + [b];
    PassPrefix(r.env, m, bs, b);
    PassState(r.env, m, bs);
    PassObeys(r.env, m, State(map[], 0, 0, 0, 0, map[]), body);
    assert m.Planner() == CANON;
    SlotRecords(r.env, r.Lit(x), r.Lit(y));
    hide Passes, Obeys, RecordsAll, PlanAll;
    assert LitsFor(r.env, bs)
        && LitsFor(r.env, [b]) by { assert forall i :: 0 <= i < |bs| ==> body[i] == bs[i]; assert body[|bs|] == b; }
    RecordsSplit(r.env, CANON, bs, [b]);
    DispatchPlans(DomAfter(r.env, m, bs));
    assert StateAfter(CANON, body) == CANON by { LastState(StateAfter(CANON, bs), b); }
    RecordsSplit(r.env, CANON, body, slots);
    RecordsCounted(r.env, CANON, body);
    NothingStale(CANON, BANKS);
    assert Sync(CANON) == [];
    hide StateAfter, Sync;
    assert InstrRecords(r.env, body + slots)
        == RecordsAll(r.env, CANON, body) + [Record(r.Lit(x), Pc), Record(r.Lit(y), Pc)]
        + EmitAll(r.env, [], HaltBlock);
  }

  lemma LastState(st: PState, b: Block)
    requires st.Valid() && b.Ok()
    ensures StateAfter(st, [b]) == Plan(st, ShapeOf(b)).st
  {
    hide Plan;
    assert [b][1..] == [];
  }

  /** The size of a block or record, and the address behind a dispatch at at. */
  function Stride(e: Enc): int {
    if e == Classic then 16 else 8
  }

  function BehindAt(e: Enc, at: int, body: seq<Block>): int
    requires AllBanked(body)
  {
    at + Stride(e) * if e == Classic then |body| else |PlanAll(CANON, Shapes(body)).prims|
  }

  /** The instruction's two slots, where the encoding puts the code behind its dispatch. */
  ghost predicate SlotsBehind(text: Compare.Text, e: Enc, r: Regs, at: int, body: seq<Block>, x: Word, y: Word) {
    && AllOk(body) && x in r.env.lits && y in r.env.lits
    && Compare.Has(text, BehindAt(e, at, body), [Pl(r.Lit(x), Pc)])
    && Compare.Has(text, BehindAt(e, at, body) + Stride(e), [Pl(r.Lit(y), Pc)])
  }

  /** jneg, laid out with its label where pass 1 puts it, goes where the sign says. */
  lemma {:induction false} JnegReaches(text: Compare.Text, s: State, e: Enc, r: Regs, v: Loc, at: int, tramp: Word,
                                       nonneg: Word, neg: Word)
    requires Loaded(r, s) && Free(r, v) && JnegMask(e) in r.env.lits && tramp in r.env.lits && tramp + Stride(e) < M32
    requires SlotsBehind(text, e, r, at, JnegM(e, r, v, r.Lit(tramp)), nonneg, neg)
    requires tramp == BehindAt(e, at, JnegM(e, r, v, r.Lit(tramp)))
    requires Val(s, v) < Pow2(JnegBit(e)) || Val(s, v) >= M32 - Pow2(JnegBit(e))
    requires s.pc == at && Compare.Has(text, at, JnegM(e, r, v, r.Lit(tramp)))
    ensures Compare.Reaches(text, s, if Neg(Val(s, v)) then neg else nonneg, 2)
  {
    hide JnegM, BehindAt;
    Compare.JnegLeads(text, s, e, r, v, tramp, nonneg, neg);
  }

  /** jbool likewise, on a word that is 0 or 1. */
  lemma {:induction false} JboolReaches(text: Compare.Text, s: State, e: Enc, r: Regs, v: Loc, at: int, tramp: Word,
                                        ifFalse: Word, ifTrue: Word)
    requires Loaded(r, s) && Free(r, v) && Val(s, v) <= 1 && tramp in r.env.lits && tramp + Stride(e) < M32
    requires SlotsBehind(text, e, r, at, JboolM(e, r, v, r.Lit(tramp)), ifFalse, ifTrue)
    requires tramp == BehindAt(e, at, JboolM(e, r, v, r.Lit(tramp)))
    requires s.pc == at && Compare.Has(text, at, JboolM(e, r, v, r.Lit(tramp)))
    ensures Compare.Reaches(text, s, if Val(s, v) == 1 then ifTrue else ifFalse, 2)
  {
    hide JboolM, BehindAt;
    Compare.JboolLeads(text, s, e, r, v, tramp, ifFalse, ifTrue);
  }

  // ----- moves counted in words -----

  function WordMode(incrR: bool): (m: Mode)
    ensures m.Ok()
  {
    Mode(4, incrR, true, false, false)
  }

  function ByteMode(incrR: bool): (m: Mode)
    ensures m.Ok()
  {
    BankMode(if incrR then SIZE8RW else SIZE8W)
  }

  /** One word moved as four bytes: the same word where the source walks along, and wherever all
      four bytes of a standing source are equal. */
  predicate Splat(v: Word) {
    v == 0x101_0101 * (v % 0x100)
  }

  lemma {:induction false} WordsSame(s: State, a: int, b: int, n: nat)
    requires a % 4 == 0 && b % 4 == 0
    ensures Aligned(Mem(a), 4) && Aligned(Mem(b), 4) && Aligned(Mem(a), 1) && Aligned(Mem(b), 1)
    ensures Burst(s, Mem(a), Mem(b), WordMode(true), n) == Burst(s, Mem(a), Mem(b), ByteMode(true), 4 * n)
    decreases n
  {
    hide Burst;
    if n == 0 {
      NoMoves(s, a, b);
    } else {
      WordStep(s, a, b, n - 1);
      BytesStep(s, a, b, 4 * (n - 1));
      WordsSame(Put(s, Mem(b), Val(s, Mem(a))), a + 4, b + 4, n - 1);
    }
  }

  lemma NoMoves(s: State, a: int, b: int)
    requires a % 4 == 0 && b % 4 == 0
    ensures Burst(s, Mem(a), Mem(b), WordMode(true), 0) == s == Burst(s, Mem(a), Mem(b), ByteMode(true), 0)
    ensures Burst(s, Mem(a), Mem(b), WordMode(false), 0) == s == Burst(s, Mem(a), Mem(b), ByteMode(false), 0)
  {
  }

  lemma WordStep(s: State, a: int, b: int, k: nat)
    requires a % 4 == 0 && b % 4 == 0
    ensures Burst(s, Mem(a), Mem(b), WordMode(true), k + 1)
              == Burst(Put(s, Mem(b), Val(s, Mem(a))), Mem(a + 4), Mem(b + 4), WordMode(true), k)
    ensures Burst(s, Mem(a), Mem(b), WordMode(false), k + 1)
              == Burst(Put(s, Mem(b), Val(s, Mem(a))), Mem(a), Mem(b + 4), WordMode(false), k)
  {
    assert Move(s, Mem(a), Mem(b), WordMode(true)) == Put(s, Mem(b), Val(s, Mem(a)));
    assert Move(s, Mem(a), Mem(b), WordMode(false)) == Put(s, Mem(b), Val(s, Mem(a)));
    hide Move;
  }

  /** Four bytes of a word onto another, or onto itself. */
  lemma BytesStep(s: State, a: int, b: int, k: nat)
    requires a % 4 == 0 && b % 4 == 0
    ensures Burst(s, Mem(a), Mem(b), ByteMode(true), 4 + k)
              == Burst(Put(s, Mem(b), Val(s, Mem(a))), Mem(a + 4), Mem(b + 4), ByteMode(true), k)
  {
    hide Burst;
    if a != b { Compare.BurstFour(s, a, b, k); } else { SelfFour(s, a, k); }
  }

  lemma SelfStep(s: State, a: int, i: int, k: nat)
    requires a % 4 == 0 && 0 <= i < 4 && a / 4 in s.mem
    ensures Aligned(Mem(a + i), 1) && Aligned(Mem(a + i + 1), 1)
    ensures Burst(s, Mem(a + i), Mem(a + i), ByteMode(true), k + 1)
              == Burst(s, Mem(a + i + 1), Mem(a + i + 1), ByteMode(true), k)
  {
    hide Burst;
    SelfMove(s, a, i);
    Unrolled(s, Mem(a + i), Mem(a + i), ByteMode(true), k);
  }

  lemma SelfMove(s: State, a: int, i: int)
    requires a % 4 == 0 && 0 <= i < 4 && a / 4 in s.mem
    ensures Move(s, Mem(a + i), Mem(a + i), ByteMode(true)) == s
  {
    assert (a + i) / 4 == a / 4 && (a + i) % 4 == i;
    FieldBack(s.mem[a / 4], i);
    hide PutField, Words.Field;
    assert s.mem[a / 4 := s.mem[a / 4]] == s.mem;
  }

  lemma FieldBack(x: Word, i: int)
    requires 0 <= i < 4
    ensures PutField(x, i, 1, Words.Field(x, i, 1)) == x
  {
    var f := Words.Field(x, i, 1);
    assert f % 0x100 == f;
    if i == 0 {
      assert PutField(x, 0, 1, f) == x / 0x100 * 0x100 + f && f == x % 0x100;
    } else if i == 1 {
      assert PutField(x, 1, 1, f) == x / 0x1_0000 * 0x1_0000 + f * 0x100 + x % 0x100;
      ByteParts(x, 0x100);
    } else if i == 2 {
      assert PutField(x, 2, 1, f) == x / 0x100_0000 * 0x100_0000 + f * 0x1_0000 + x % 0x1_0000;
      ByteParts(x, 0x1_0000);
    } else {
      assert PutField(x, 3, 1, f) == f * 0x100_0000 + x % 0x100_0000;
      TopByte(x);
    }
  }

  lemma ByteParts(x: nat, w: int)
    requires w == 0x100 || w == 0x1_0000
    ensures x / (0x100 * w) * (0x100 * w) + x / w % 0x100 * w + x % w == x
  {
    if w == 0x100 {
      assert x / 0x1_0000 == x / 0x100 / 0x100;
    } else {
      assert x / 0x100_0000 == x / 0x1_0000 / 0x100;
    }
  }

  lemma TopByte(x: Word)
    ensures x / 0x100_0000 % 0x100 * 0x100_0000 + x % 0x100_0000 == x
  {
    assert x / 0x100_0000 < 0x100;
  }

  lemma SelfFour(s: State, a: int, k: nat)
    requires a % 4 == 0
    ensures Burst(s, Mem(a), Mem(a), ByteMode(true), 4 + k)
              == Burst(Put(s, Mem(a), Val(s, Mem(a))), Mem(a + 4), Mem(a + 4), ByteMode(true), k)
  {
    hide Burst;
    var s1 := Put(s, Mem(a), Val(s, Mem(a)));
    FieldBack(Val(s, Mem(a)), 0);
    assert Move(s, Mem(a), Mem(a), ByteMode(true)) == s1;
    Unrolled(s, Mem(a), Mem(a), ByteMode(true), 3 + k);
    SelfStep(s1, a, 1, 2 + k);
    SelfStep(s1, a, 2, 1 + k);
    SelfStep(s1, a, 3, k);
  }

  // ----- a standing source -----

  /** Four copies of a word's low byte. */
  function Spread(v: Word): (w: Word)
    ensures w % 0x100 == v % 0x100 && (w == v <==> Splat(v))
  {
    0x101_0101 * (v % 0x100)
  }

  /** Byte i of a word replaced by the low byte of the standing source. */
  lemma StandStep(s: State, a: int, b: int, i: int, x: Word, k: nat)
    requires a % 4 == 0 && b % 4 == 0 && 0 <= i < 4 && Val(s, Mem(a)) % 0x100 == x && x < 0x100
    ensures Aligned(Mem(a), 1) && Aligned(Mem(b + i), 1) && Aligned(Mem(b + i + 1), 1)
    ensures Burst(s, Mem(a), Mem(b + i), ByteMode(false), k + 1) ==
            Burst(Put(s, Mem(b), PutField(Val(s, Mem(b)), i, 1, x)), Mem(a), Mem(b + i + 1), ByteMode(false), k)
  {
    hide Burst;
    Unrolled(s, Mem(a), Mem(b + i), ByteMode(false), k);
    assert (b + i) / 4 == b / 4 && (b + i) % 4 == i;
    assert Words.Field(Val(s, Mem(a)), 0, 1) == x;
    hide PutField, Words.Field;
  }

  /** Remainders nest. */
  lemma NestedMod(z: nat, q: int)
    requires q > 0
    ensures z % (0x100 * q) % 0x100 == z % 0x100
  {
    var m := 0x100 * q;
    var k, r := z / m, z % m;
    var a, b := r / 0x100, r % 0x100;
    assert z == k * m + r && k * m == (k * q) * 0x100;
    Bits.QuotientOf(z, 0x100, k * q + a, b);
  }

  lemma LowPart(low: int, p: int, x: int)
    requires p == 0x100 || p == 0x1_0000 || p == 0x100_0000
    ensures (low + p * x) % 0x100 == low % 0x100
  {
  }

  lemma LowByteKept(y: Word, i: int, x: Word)
    requires 0 <= i < 4 && x < 0x100 && (i > 0 ==> y % 0x100 == x)
    ensures PutField(y, i, 1, x) % 0x100 == x
  {
    hide PutField;
    Compare.LowBytes(y, x);
    var z := PutField(y, i, 1, x);
    if i == 1 {
      NestedMod(z, 0x100);
      LowPart(x, 0x100, x);
    } else if i == 2 {
      NestedMod(z, 0x1_0000); NestedMod(y, 0x100);
      LowPart(y % 0x1_0000, 0x1_0000, x);
    } else if i == 3 {
      NestedMod(y, 0x1_0000);
      LowPart(y % 0x100_0000, 0x100_0000, x);
    }
  }

  lemma SpreadBytes(y: Word, x: Word)
    requires x < 0x100
    ensures PutField(PutField(PutField(PutField(y, 0, 1, x), 1, 1, x), 2, 1, x), 3, 1, x) == 0x101_0101 * x
  {
    hide PutField;
    Compare.BytesLaid(y, x, x, x, x);
  }

  /** Four bytes from a standing source spread its low byte, even onto the source itself. */
  lemma StandFour(s: State, a: int, b: int, k: nat)
    requires a % 4 == 0 && b % 4 == 0
    ensures var s' := Put(s, Mem(b), Spread(Val(s, Mem(a))));
            && Val(s', Mem(a)) % 0x100 == Val(s, Mem(a)) % 0x100
            && Burst(s, Mem(a), Mem(b), ByteMode(false), 4 + k) == Burst(s', Mem(a), Mem(b + 4), ByteMode(false), k)
  {
    hide Burst, PutField;
    var x, y := Val(s, Mem(a)) % 0x100, Val(s, Mem(b));
    var y1 := PutField(y, 0, 1, x);
    var y2 := PutField(y1, 1, 1, x);
    var y3 := PutField(y2, 2, 1, x);
    var y4 := PutField(y3, 3, 1, x);
    LowByteKept(y, 0, x); LowByteKept(y1, 1, x); LowByteKept(y2, 2, x); LowByteKept(y3, 3, x);
    SpreadBytes(y, x);
    StandStep(s, a, b, 0, x, 3 + k);
    StandStep(Put(s, Mem(b), y1), a, b, 1, x, 2 + k);
    Compare.PutTwice(s, b, y1, y2);
    StandStep(Put(s, Mem(b), y2), a, b, 2, x, 1 + k);
    Compare.PutTwice(s, b, y2, y3);
    StandStep(Put(s, Mem(b), y3), a, b, 3, x, k);
    Compare.PutTwice(s, b, y3, y4);
  }

  lemma {:induction false} StandSame(s: State, a: int, b: int, n: nat)
    requires a % 4 == 0 && b % 4 == 0 && Splat(Val(s, Mem(a)))
    ensures Burst(s, Mem(a), Mem(b), WordMode(false), n) == Burst(s, Mem(a), Mem(b), ByteMode(false), 4 * n)
    decreases n
  {
    hide Burst;
    if n == 0 {
      NoMoves(s, a, b);
    } else {
      WordStep(s, a, b, n - 1);
      StandFour(s, a, b, 4 * (n - 1));
      StandSame(Put(s, Mem(b), Val(s, Mem(a))), a, b + 4, n - 1);
    }
  }

  /** What lies below a walking destination stays. */
  lemma {:induction false} StandKeeps(s: State, a: int, b: int, m: Mode, n: nat, i: int)
    requires m.Ok() && a % 4 == 0 && Aligned(Mem(a), m.size) && Aligned(Mem(b), m.size) && !m.incrR && m.incrW
    requires i < b / 4
    ensures Peek(Burst(s, Mem(a), Mem(b), m, n).mem, i) == Peek(s.mem, i)
    decreases n
  {
    if n > 0 {
      var s1 := Move(s, Mem(a), Mem(b), m);
      assert Peek(s1.mem, i) == Peek(s.mem, i);
      StandKeeps(s1, a, b + m.size, m, n - 1, i);
    }
  }

  /** Words from a standing source, as words and as bytes: the same exactly when its four bytes are
      equal. */
  lemma {:induction false} StandIff(s: State, a: int, b: int, n: nat)
    requires a % 4 == 0 && b % 4 == 0 && n > 0
    ensures Burst(s, Mem(a), Mem(b), WordMode(false), n) == Burst(s, Mem(a), Mem(b), ByteMode(false), 4 * n) <==>
              Splat(Val(s, Mem(a)))
  {
    hide Burst;
    var v := Val(s, Mem(a));
    if Splat(v) {
      StandSame(s, a, b, n);
    } else {
      WordStep(s, a, b, n - 1);
      StandFour(s, a, b, 4 * (n - 1));
      StandKeeps(Put(s, Mem(b), v), a, b + 4, WordMode(false), n - 1, b / 4);
      StandKeeps(Put(s, Mem(b), Spread(v)), a, b + 4, ByteMode(false), 4 * (n - 1), b / 4);
    }
  }

  // ----- neither end walks -----

  function FixedMode(size: int): (m: Mode)
    requires size == 1 || size == 4
    ensures m.Ok()
  {
    Mode(size, false, false, false, false)
  }

  lemma {:induction false} FixedWords(s: State, a: int, b: int, n: nat)
    requires a % 4 == 0 && b % 4 == 0 && n > 0
    ensures Burst(s, Mem(a), Mem(b), FixedMode(4), n) == Put(s, Mem(b), Val(s, Mem(a)))
    decreases n
  {
    hide Burst;
    var s1 := Put(s, Mem(b), Val(s, Mem(a)));
    assert Move(s, Mem(a), Mem(b), FixedMode(4)) == s1;
    Unrolled(s, Mem(a), Mem(b), FixedMode(4), n - 1);
    if n == 1 {
      NoBurst(s1, Mem(a), Mem(b), FixedMode(4));
    } else {
      FixedWords(s1, a, b, n - 1);
      Compare.PutTwice(s, b, Val(s, Mem(a)), Val(s, Mem(a)));
    }
  }

  lemma NoBurst(s: State, x: Loc, y: Loc, m: Mode)
    requires m.Ok() && Aligned(x, m.size) && Aligned(y, m.size)
    ensures Burst(s, x, y, m, 0) == s
  {
  }

  lemma {:induction false} FixedBytes(s: State, a: int, b: int, n: nat)
    requires a % 4 == 0 && b % 4 == 0 && n > 0
    ensures Burst(s, Mem(a), Mem(b), FixedMode(1), n)
              == Put(s, Mem(b), PutField(Val(s, Mem(b)), 0, 1, Val(s, Mem(a)) % 0x100))
    decreases n
  {
    hide Burst;
    var x, y := Val(s, Mem(a)) % 0x100, Val(s, Mem(b));
    var s1 := Put(s, Mem(b), PutField(y, 0, 1, x));
    assert Words.Field(Val(s, Mem(a)), 0, 1) == x;
    assert Move(s, Mem(a), Mem(b), FixedMode(1)) == s1;
    Unrolled(s, Mem(a), Mem(b), FixedMode(1), n - 1);
    if n == 1 {
      NoBurst(s1, Mem(a), Mem(b), FixedMode(1));
    } else {
      PutAgain(y, x);
      assert Val(s1, Mem(a)) % 0x100 == x;
      FixedBytes(s1, a, b, n - 1);
      hide PutField;
      Compare.PutTwice(s, b, PutField(y, 0, 1, x), PutField(y, 0, 1, x));
    }
  }

  lemma PutAgain(y: Word, x: Word)
    requires x < 0x100
    ensures PutField(PutField(y, 0, 1, x), 0, 1, x) == PutField(y, 0, 1, x)
    ensures PutField(y, 0, 1, x) == y - y % 0x100 + x
  {
  }

  /** With neither end walking, the byte form moves one byte only: the same exactly when the words
      agree above it. */
  lemma {:induction false} FixedIff(s: State, a: int, b: int, n: nat)
    requires a % 4 == 0 && b % 4 == 0 && n > 0
    ensures Burst(s, Mem(a), Mem(b), FixedMode(4), n) == Burst(s, Mem(a), Mem(b), FixedMode(1), 4 * n)
       <==> Val(s, Mem(a)) / 0x100 == Val(s, Mem(b)) / 0x100
  {
    hide Burst, PutField;
    var v, y := Val(s, Mem(a)), Val(s, Mem(b));
    FixedWords(s, a, b, n);
    FixedBytes(s, a, b, 4 * n);
    PutAgain(y, v % 0x100);
    var z := PutField(y, 0, 1, v % 0x100);
    assert z == v <==> v / 0x100 == y / 0x100;
    assert Put(s, Mem(b), v).mem[b / 4] == v && Put(s, Mem(b), z).mem[b / 4] == z;
  }

  // ----- the move macro in both encodings -----

  /** What a move does in classic code. */
  function ClassicMove(s: State, src: Loc, dst: Loc, fl: MoveFlags): State
    requires FlagsTaken(Classic, fl) && Aligned(src, FieldSize(Classic, fl)) && Aligned(dst, FieldSize(Classic, fl))
  {
    Burst(s, src, dst, Mode(FieldSize(Classic, fl), fl.incrR, fl.incrW, fl.bswap, fl.sniff), FieldCount(Classic, fl))
  }

  /** A move means the same in both encodings, whatever it moves, unless it counts words; and then
      exactly when both ends walk, or the source stands on a word of four equal bytes while the
      destination walks, or neither walks and the words agree above their low byte. */
  lemma {:induction false} MoveMeans(s: State, src: Loc, dst: Loc, fl: MoveFlags)
    requires FlagsTaken(Classic, fl) && !fl.dyn && MoveBlock(src, dst, fl).Ok()
    requires Aligned(src, FieldSize(Classic, fl)) && Aligned(dst, FieldSize(Classic, fl))
    requires fl.words != 0 ==> Cell(src) && Cell(dst) && 4 * fl.words < M32
    ensures ClassicMove(s, src, dst, fl) == ExecBlock(s, MoveBlock(src, dst, fl)) <==>
            (fl.words == 0 || (fl.incrR && fl.incrW) || (fl.incrW && Splat(Val(s, src))) ||
             (!fl.incrR && !fl.incrW && Val(s, src) / 0x100 == Val(s, dst) / 0x100))
  {
    hide Burst;
    BankForMode(FieldSize(Compact, fl), fl.sniff, fl.bswap, fl.incrR, fl.incrW);
    if fl.words != 0 {
      var a, b := src.addr, dst.addr;
      if fl.incrR {
        WordsSame(s, a, b, fl.words);
      } else if fl.incrW {
        StandIff(s, a, b, fl.words);
      } else {
        FixedIff(s, a, b, fl.words);
      }
    }
  }

  /** Two words of memory, the first to be moved onto the second. */
  function TwoWords(): State {
    State(map[0 := 0x1234, 1 := 0x5678], 0, 0, 0, 0, map[])
  }

  /** wcount=1 with a standing source: the word in classic code, its low byte four times in compact. */
  lemma StandingSource()
    ensures var fl := MoveFlags(4, false, false, false, true, 1, 1, false);
            var x, y, s := Mem(0), Mem(4), TwoWords();
            && FlagsTaken(Classic, fl) && MoveBlock(x, y, fl).Ok()
            && Val(ClassicMove(s, x, y, fl), y) == 0x1234 && Val(ExecBlock(s, MoveBlock(x, y, fl)), y) == 0x3434_3434
  {
    hide Burst;
    var s := TwoWords();
    WordStep(s, 0, 4, 0);
    NoMoves(Put(s, Mem(4), 0x1234), 0, 8);
    StandFour(s, 0, 4, 0);
    var s' := Put(s, Mem(4), Spread(0x1234));
    NoBurst(s', Mem(0), Mem(8), ByteMode(false));
    assert Spread(0x1234) == 0x3434_3434;
  }

  /** With both addresses standing: the word in classic code, only its low byte in compact. */
  lemma StandingBoth()
    ensures var fl := MoveFlags(4, false, false, false, false, 1, 1, false);
            var x, y, s := Mem(0), Mem(4), TwoWords();
            && FlagsTaken(Classic, fl) && MoveBlock(x, y, fl).Ok()
            && Val(ClassicMove(s, x, y, fl), y) == 0x1234 && Val(ExecBlock(s, MoveBlock(x, y, fl)), y) == 0x5634
  {
    hide Burst;
    var s := TwoWords();
    FixedWords(s, 0, 4, 1);
    FixedBytes(s, 0, 4, 4);
    PutAgain(0x5678, 0x34);
  }
}
