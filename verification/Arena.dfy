/** The sign-dispatch arena: the slots the second pass emits sit where the first pass laid the
    trampoline pairs out. */
module Arena {
  import opened Bits
  import opened Macros

  datatype Pair = Pair(nonneg: int, neg: int)     // the two target labels
  datatype Slot = Jump(target: int) | Halt

  function SlotSize(e: Enc): int {
    if e == Classic then 16 else 8
  }

  /** How many pairs a 256-byte bank holds. */
  function PerBank(e: Enc): (n: int)
    ensures n > 0
  {
    if e == Classic then 8 else 16
  }

  /** Pass 1: where pair i's sign-clear slot sits; the sign-set slot is 128 bytes further. */
  function Offset(e: Enc, i: nat): int {
    i / PerBank(e) * 256 + i % PerBank(e) * SlotSize(e)
  }

  function ArenaSize(e: Enc, n: nat): int {
    (n + PerBank(e) - 1) / PerBank(e) * 256
  }

  function RowSlot(pairs: seq<Pair>, p: nat, negRow: bool): Slot {
    if p < |pairs| then Jump(if negRow then pairs[p].neg else pairs[p].nonneg) else Halt
  }

  /** What belongs at emission index i: rows of n slots, sign-clear and sign-set alternating. */
  function SlotAt(pairs: seq<Pair>, n: int, i: nat): Slot
    requires n > 0
  {
    RowSlot(pairs, i / n / 2 * n + i % n, i / n % 2 == 1)
  }

  ghost predicate Emitted(pairs: seq<Pair>, n: int, out: seq<Slot>)
    requires n > 0
  {
    forall i :: 0 <= i < |out| ==> out[i] == SlotAt(pairs, n, i)
  }

  /** Pass 2: bank by bank, the sign-clear row and then the sign-set row; unused slots halt. */
  method EmitArena(e: Enc, pairs: seq<Pair>) returns (out: seq<Slot>)
    ensures |out| * SlotSize(e) == ArenaSize(e, |pairs|)
    ensures forall p :: 0 <= p < |pairs| ==>
      var i := Offset(e, p) / SlotSize(e);
      0 <= i && Offset(e, p) % SlotSize(e) == 0 && i + 128 / SlotSize(e) < |out| &&
      out[i] == Jump(pairs[p].nonneg) && out[i + 128 / SlotSize(e)] == Jump(pairs[p].neg)
    ensures forall i :: 0 <= i < |out| && out[i] != Halt ==>
      exists p: nat :: p < |pairs| && (i * SlotSize(e) == Offset(e, p) || i * SlotSize(e) == Offset(e, p) + 128)
  {
    var n := PerBank(e);
    var b := 0;
    out := [];
    while b * n < |pairs|
      invariant b >= 0 && |out| == 2 * b * n && (b > 0 ==> (b - 1) * n < |pairs|) && Emitted(pairs, n, out)
      decreases |pairs| - b * n
    {
      out := EmitRow(pairs, b, n, false, out);
      out := EmitRow(pairs, b, n, true, out);
      b := b + 1;
    }
    BankCount(|pairs|, n, b);
    forall p | 0 <= p < |pairs|
      ensures 0 <= Offset(e, p) / SlotSize(e) && Offset(e, p) % SlotSize(e) == 0
      ensures Offset(e, p) / SlotSize(e) + 128 / SlotSize(e) < |out|
      ensures out[Offset(e, p) / SlotSize(e)] == Jump(pairs[p].nonneg)
      ensures out[Offset(e, p) / SlotSize(e) + 128 / SlotSize(e)] == Jump(pairs[p].neg)
    {
      Placed(e, pairs, p, b);
    }
    forall i | 0 <= i < |out| && out[i] != Halt
      ensures exists p: nat :: p < |pairs| && (i * SlotSize(e) == Offset(e, p) || i * SlotSize(e) == Offset(e, p) + 128)
    {
      var p := Occupant(e, pairs, i);
    }
  }

  /** A slot that does not halt is a pair's. */
  lemma Occupant(e: Enc, pairs: seq<Pair>, i: nat) returns (p: nat)
    requires SlotAt(pairs, PerBank(e), i) != Halt
    ensures p < |pairs| && (i * SlotSize(e) == Offset(e, p) || i * SlotSize(e) == Offset(e, p) + 128)
  {
    var n := PerBank(e);
    var row, k := i / n, i % n;
    var q := row / 2;
    p := q * n + k;
    QuotientOf(p, n, q, k);
    assert i == row * n + k && (row == 2 * q || row == 2 * q + 1);
    assert row == 2 * q + 1 ==> row * n == 2 * q * n + n;
  }

  /** One row of bank b. */
  method EmitRow(pairs: seq<Pair>, b: nat, n: int, negRow: bool, out0: seq<Slot>) returns (out: seq<Slot>)
    requires n > 0 && Emitted(pairs, n, out0) && |out0| == (2 * b + if negRow then 1 else 0) * n
    ensures |out| == |out0| + n && Emitted(pairs, n, out)
  {
    out := out0;
    for slot := 0 to n
      invariant |out| == |out0| + slot && Emitted(pairs, n, out)
    {
      var p := b * n + slot;
      RowIndex(b, n, negRow, slot);
      if p >= |pairs| {
        out := out + [Halt];
      } else {
        out := out + [Jump(if negRow then pairs[p].neg else pairs[p].nonneg)];
      }
    }
  }

  lemma RowIndex(b: nat, n: int, negRow: bool, k: nat)
    requires k < n
    ensures var row := 2 * b + if negRow then 1 else 0; var i := row * n + k;
            i >= 0 && i / n == row && i % n == k && row / 2 == b && (row % 2 == 1 <==> negRow)
  {
    var row := 2 * b + if negRow then 1 else 0;
    QuotientOf(row * n + k, n, row, k);
  }

  /** The loop runs once per bank that holds a pair. */
  lemma BankCount(total: nat, n: int, b: nat)
    requires n > 0 && b * n >= total && (b > 0 ==> (b - 1) * n < total)
    ensures (total + n - 1) / n == b
  {
    assert b > 0 ==> (b - 1) * n == b * n - n;
    QuotientOf(total + n - 1, n, b, total + n - 1 - b * n);
  }

  /** Pass 1's byte offset is pass 2's emission index. */
  lemma Placed(e: Enc, pairs: seq<Pair>, p: nat, b: nat)
    requires p < |pairs| && p < b * PerBank(e)
    ensures var i := Offset(e, p) / SlotSize(e);
            0 <= i && Offset(e, p) % SlotSize(e) == 0 && i + 128 / SlotSize(e) < 2 * b * PerBank(e) &&
            SlotAt(pairs, PerBank(e), i) == Jump(pairs[p].nonneg) &&
            SlotAt(pairs, PerBank(e), i + 128 / SlotSize(e)) == Jump(pairs[p].neg)
  {
    var n := PerBank(e);
    var q, k := p / n, p % n;
    InBank(p, n, b);
    OffsetIs(e, p);
    hide Offset, PerBank;
    RowIndex(q, n, false, k); RowIndex(q, n, true, k);
  }

  lemma OffsetIs(e: Enc, p: nat)
    ensures var n := PerBank(e);
            && Offset(e, p) / SlotSize(e) == 2 * (p / n) * n + p % n && Offset(e, p) % SlotSize(e) == 0
                && 128 / SlotSize(e) == n
  {
    var n := PerBank(e);
    QuotientOf(Offset(e, p), SlotSize(e), 2 * (p / n) * n + p % n, 0);
  }

  lemma InBank(p: nat, n: int, b: nat)
    requires n > 0 && p < b * n
    ensures p == p / n * n + p % n && 0 <= p / n < b && 2 * (p / n) * n + p % n + n < 2 * b * n
  {
    var q := p / n;
    assert q >= b ==> q * n >= b * n;
    assert (q + 1) * n <= b * n;
  }
}
