/** Straight-line assembler code over word cells, as the compiler's lowering emits it. */
module Asm {
  import opened Words
  import opened Bits

  /** The word cells of a program, by name. */
  type Cells = map<int, Word>

  const ZERO := 0    // the zero register
  const SC0 := 1     // the lowering's scratch words
  const SC1 := 2
  const SC2 := 3

  function Get(s: Cells, c: int): Word {
    if c in s && c != ZERO then s[c] else 0
  }

  datatype Opd = Cell(c: int) | Imm(k: Word)

  function Val(s: Cells, o: Opd): Word {
    match o case Cell(c) => Get(s, c) case Imm(k) => k
  }

  datatype Op = ADD | SUB | OR | XOR | ANDN

  function Apply(op: Op, a: Word, b: Word): Word {
    match op
    case ADD => Add(a, b)
    case SUB => Sub(a, b)
    case OR => OrW(a, b)
    case XOR => XorW(a, b)
    case ANDN => AndNotW(a, b)
  }

  datatype Ins =
    | Move(a: Opd, d: int)
    | Bin(op: Op, a: Opd, b: Opd, d: int)
    | Mulc(a: Opd, k: Word, d: int)
    | Lane(from: int, i: int, d: int, j: int, size: int, n: nat)   // n fields of the given size, both ends walking up

  predicate LaneOk(i: int, j: int, size: int, n: nat) {
    (size == 1 && 0 <= i && i + n <= 4 && 0 <= j && j + n <= 4)
        || (size == 2 && n == 1 && (i == 0 || i == 2) && (j == 0 || j == 2))
  }

  predicate InsOk(x: Ins) {
    x.d != ZERO && (x.Lane? ==> LaneOk(x.i, x.j, x.size, x.n))
  }

  /** Fields copied one by one, each read from the state the previous left. */
  function Lanes(s: Cells, a: int, i: int, d: int, j: int, size: int, n: nat): Cells
    requires LaneOk(i, j, size, n)
    decreases n
  {
    if n == 0 then s
    else if size == 2 then s[d := PutField(Get(s, d), j, 2, Field(Get(s, a), i, 2))]
    else Lanes(s[d := PutField(Get(s, d), j, 1, Field(Get(s, a), i, 1))], a, i + 1, d, j + 1, 1, n - 1)
  }

  function Exec(s: Cells, x: Ins): Cells
    requires InsOk(x)
  {
    match x
    case Move(a, d) => s[d := Val(s, a)]
    case Bin(op, a, b, d) => s[d := Apply(op, Val(s, a), Val(s, b))]
    case Mulc(a, k, d) => s[d := Wrap(k * Val(s, a))]
    case Lane(a, i, d, j, size, n) => Lanes(s, a, i, d, j, size, n)
  }

  predicate CodeOk(code: seq<Ins>) {
    forall i :: 0 <= i < |code| ==> InsOk(code[i])
  }

  function Run(s: Cells, code: seq<Ins>): Cells
    requires CodeOk(code)
    decreases |code|
  {
    if code == [] then s else Run(Exec(s, code[0]), code[1..])
  }

  lemma {:induction false} RunSplit(s: Cells, x: seq<Ins>, y: seq<Ins>)
    requires CodeOk(x) && CodeOk(y)
    ensures CodeOk(x + y) && Run(s, x + y) == Run(Run(s, x), y)
    decreases |x|
  {
    hide Exec;
    if x == [] {
      assert x + y == y;
    } else {
      assert (x + y)[1..] == x[1..] + y;
      RunSplit(Exec(s, x[0]), x[1..], y);
    }
  }

  lemma Run1(s: Cells, x: Ins)
    requires InsOk(x)
    ensures CodeOk([x]) && Run(s, [x]) == Exec(s, x)
  {
    hide Exec;
    assert [x][1..] == [];
  }

  lemma Run2(s: Cells, x: Ins, y: Ins)
    requires InsOk(x) && InsOk(y)
    ensures CodeOk([x, y]) && Run(s, [x, y]) == Exec(Exec(s, x), y)
  {
    hide Exec, Run;
    Run1(s, x); Run1(Exec(s, x), y);
    RunSplit(s, [x], [y]);
    assert [x] + [y] == [x, y];
  }

  /** t is s but for the cells of w. */
  ghost predicate Same(s: Cells, t: Cells, w: set<int>) {
    forall c :: c !in w ==> Get(t, c) == Get(s, c)
  }

  // ----- lane copies between two cells -----

  lemma Bytes(x: Word)
    ensures x == Words.Lane(x, 0) + 0x100 * Words.Lane(x, 1) + 0x1_0000 * Words.Lane(x, 2)
              + 0x100_0000 * Words.Lane(x, 3)
    ensures forall i :: 0 <= i < 4 ==> Field(x, i, 1) == Words.Lane(x, i)
  {
    LaneParts(x);
    forall i | 0 <= i < 4 ensures Field(x, i, 1) == Words.Lane(x, i) { hide LaneWeight; }
  }

  /** Bytes laid into a cleared word, upwards from byte 0 and from byte 1. */
  lemma Laid(b0: Word, b1: Word, b2: Word)
    requires b0 < 0x100 && b1 < 0x100 && b2 < 0x100
    ensures PutField(PutField(PutField(0, 0, 1, b0), 1, 1, b1), 2, 1, b2) == b0 + 0x100 * b1 + 0x1_0000 * b2
  {
    assert PutField(0, 0, 1, b0) == b0;
    assert PutField(b0, 1, 1, b1) == b0 + 0x100 * b1;
    assert PutField(b0 + 0x100 * b1, 2, 1, b2) == b0 + 0x100 * b1 + 0x1_0000 * b2;
  }

  lemma LaidUp(b0: Word, b1: Word, b2: Word)
    requires b0 < 0x100 && b1 < 0x100 && b2 < 0x100
    ensures PutField(PutField(PutField(0, 1, 1, b0), 2, 1, b1), 3, 1, b2)
              == 0x100 * b0 + 0x1_0000 * b1 + 0x100_0000 * b2
  {
    assert PutField(0, 1, 1, b0) == 0x100 * b0;
    assert PutField(0x100 * b0, 2, 1, b1) == 0x100 * b0 + 0x1_0000 * b1;
    assert PutField(0x100 * b0 + 0x1_0000 * b1, 3, 1, b2) == 0x100 * b0 + 0x1_0000 * b1 + 0x100_0000 * b2;
  }

  /** Single fields into a cleared word. */
  lemma LaidOnce(x: Word)
    ensures PutField(0, 0, 2, Field(x, 2, 2)) == x / 0x1_0000 && PutField(0, 0, 1, Field(x, 3, 1)) == x / 0x100_0000
    ensures PutField(0, 2, 2, Field(x, 0, 2)) == x % 0x1_0000 * 0x1_0000
    ensures PutField(0, 3, 1, Field(x, 0, 1)) == x % 0x100 * 0x100_0000
  {
    TopFields(x); LowFields(x);
    hide Field, PutField;
    LaidAt(x / 0x1_0000, x % 0x1_0000);
    LaidByte(x / 0x100_0000, x % 0x100);
  }

  lemma TopFields(x: Word)
    ensures Field(x, 2, 2) == x / 0x1_0000 < 0x1_0000 && Field(x, 3, 1) == x / 0x100_0000 < 0x100
  {
    assert x / 0x1_0000 < 0x1_0000;
    assert x / 0x100_0000 < 0x100;
  }

  lemma LowFields(x: Word)
    ensures Field(x, 0, 2) == x % 0x1_0000 && Field(x, 0, 1) == x % 0x100
  {
    assert x / 1 == x;
  }

  lemma LaidAt(hi: Word, lo: Word)
    requires hi < 0x1_0000 && lo < 0x1_0000
    ensures PutField(0, 0, 2, hi) == hi && PutField(0, 2, 2, lo) == lo * 0x1_0000
  {
  }

  lemma LaidByte(hi: Word, lo: Word)
    requires hi < 0x100 && lo < 0x100
    ensures PutField(0, 0, 1, hi) == hi && PutField(0, 3, 1, lo) == lo * 0x100_0000
  {
  }

  lemma ThreeLanes(s: Cells, a: int, i: int, d: int, j: int)
    requires a != d && d != ZERO && 0 <= i <= 1 && 0 <= j <= 1
    ensures var x, t := Get(s, a), Lanes(s, a, i, d, j, 1, 3);
            Get(t, d) == PutField(PutField(PutField(Get(s, d), j, 1, Field(x, i, 1)), j + 1, 1, Field(x, i + 1, 1)),
                j + 2, 1, Field(x, i + 2, 1)) &&
            Same(s, t, {d})
  {
    hide PutField, Field;
    var x := Get(s, a);
    var s1 := s[d := PutField(Get(s, d), j, 1, Field(x, i, 1))];
    var s2 := s1[d := PutField(Get(s1, d), j + 1, 1, Field(x, i + 1, 1))];
    var s3 := s2[d := PutField(Get(s2, d), j + 2, 1, Field(x, i + 2, 1))];
    assert Lanes(s, a, i, d, j, 1, 3) == Lanes(s1, a, i + 1, d, j + 1, 1, 2);
    assert Lanes(s1, a, i + 1, d, j + 1, 1, 2) == Lanes(s2, a, i + 2, d, j + 2, 1, 1);
    assert Lanes(s2, a, i + 2, d, j + 2, 1, 1) == Lanes(s3, a, i + 3, d, j + 3, 1, 0);
  }

  function ByteWeight(k: int): (w: int)
    requires 0 <= k <= 3
    ensures w > 0
  {
    if k == 0 then 1 else if k == 1 then 0x100 else if k == 2 then 0x1_0000 else 0x100_0000
  }

  /** The copy that shifts down by k bytes, and the one that shifts up. */
  function DownLane(a: int, k: int, d: int): Ins {
    if k == 1 then Lane(a, 1, d, 0, 1, 3) else if k == 2 then Lane(a, 2, d, 0, 2, 1) else Lane(a, 3, d, 0, 1, 1)
  }

  function UpLane(a: int, k: int, d: int): Ins {
    if k == 1 then Lane(a, 0, d, 1, 1, 3) else if k == 2 then Lane(a, 0, d, 2, 2, 1) else Lane(a, 0, d, 3, 1, 1)
  }

  /** One field into a cleared word. */
  lemma OneLane(s: Cells, a: int, i: int, d: int, j: int, size: int)
    requires a != d && d != ZERO && LaneOk(i, j, size, 1)
    ensures var t := Lanes(s, a, i, d, j, size, 1);
            Get(t, d) == PutField(Get(s, d), j, size, Field(Get(s, a), i, size)) && Same(s, t, {d})
  {
    hide PutField, Field;
    if size == 1 {
      var s1 := s[d := PutField(Get(s, d), j, 1, Field(Get(s, a), i, 1))];
      assert Lanes(s, a, i, d, j, 1, 1) == Lanes(s1, a, i + 1, d, j + 1, 1, 0);
    }
  }

  /** Copies into a cleared word shift by whole bytes. */
  lemma LaneDown(s: Cells, a: int, k: int, d: int)
    requires a != d && d != ZERO && 1 <= k <= 3 && Get(s, d) == 0
    ensures var t := Exec(s, DownLane(a, k, d)); Get(t, d) == Get(s, a) / ByteWeight(k) && Same(s, t, {d})
  {
    hide PutField, Field, Lanes;
    var x := Get(s, a);
    LaidOnce(x);
    if k == 1 {
      ThreeLanes(s, a, 1, d, 0);
      Laid(Field(x, 1, 1), Field(x, 2, 1), Field(x, 3, 1));
      DownOne(x);
    } else if k == 2 {
      OneLane(s, a, 2, d, 0, 2);
    } else {
      OneLane(s, a, 3, d, 0, 1);
    }
  }

  lemma DownOne(x: Word)
    ensures x / 0x100 == Field(x, 1, 1) + 0x100 * Field(x, 2, 1) + 0x1_0000 * Field(x, 3, 1)
  {
    Bytes(x);
    QuotientOf(x, 0x100, Words.Lane(x, 1) + 0x100 * Words.Lane(x, 2) + 0x1_0000 * Words.Lane(x, 3), Words.Lane(x, 0));
  }

  lemma LaneUp(s: Cells, a: int, k: int, d: int)
    requires a != d && d != ZERO && 1 <= k <= 3 && Get(s, d) == 0
    ensures var t := Exec(s, UpLane(a, k, d)); Get(t, d) == Wrap(Get(s, a) * ByteWeight(k)) && Same(s, t, {d})
  {
    hide PutField, Field, Lanes, Wrap;
    var x := Get(s, a);
    LaidOnce(x);
    if k == 1 {
      ThreeLanes(s, a, 0, d, 1);
      LaidUp(Field(x, 0, 1), Field(x, 1, 1), Field(x, 2, 1));
      UpOne(x);
    } else if k == 2 {
      OneLane(s, a, 0, d, 2, 2);
      UpTwo(x);
    } else {
      OneLane(s, a, 0, d, 3, 1);
      UpThree(x);
    }
  }

  lemma UpOne(x: Word)
    ensures Wrap(x * 0x100) == 0x100 * Field(x, 0, 1) + 0x1_0000 * Field(x, 1, 1) + 0x100_0000 * Field(x, 2, 1)
  {
    Bytes(x);
    var lo := 0x100 * Words.Lane(x, 0) + 0x1_0000 * Words.Lane(x, 1) + 0x100_0000 * Words.Lane(x, 2);
    QuotientOf(x * 0x100, M32, Words.Lane(x, 3), lo);
  }

  lemma UpTwo(x: Word)
    ensures Wrap(x * 0x1_0000) == x % 0x1_0000 * 0x1_0000
  {
    QuotientOf(x * 0x1_0000, M32, x / 0x1_0000, x % 0x1_0000 * 0x1_0000);
  }

  lemma UpThree(x: Word)
    ensures Wrap(x * 0x100_0000) == x % 0x100 * 0x100_0000
  {
    QuotientOf(x * 0x100_0000, M32, x / 0x100, x % 0x100 * 0x100_0000);
  }
}
