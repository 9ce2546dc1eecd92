/** The arithmetic runtime (host/dmacc/runtime.go): register programs over word cells, exact for
    every 32-bit input. */
module Runtime {
  import opened Words
  import opened Bits
  import opened Macros
  import opened Dispatch
  import Asm
  import Shifts
  import opened DivConst

  // ----- what the routines' instructions compute -----

  /** shl: an addition to itself. */
  function Twice(x: Word): Word {
    Add(x, x)
  }

  /** jneg as either encoding decides it. */
  predicate Jneg(e: Enc, x: Word) {
    Bit(x, JnegBit(e)) == 1
  }

  lemma JnegSmall(e: Enc, x: Word)
    requires x < 0x800_0000 || x >= M32 - 0x800_0000
    ensures Jneg(e, x) <==> Neg(x)
  {
    Pow2At32(); Pow2Sum(27, 4); Pow2Sum(28, 3);
    assert Pow2(4) == 16 && Pow2(3) == 8;
    JnegRange(e, x);
  }

  /** The byte burst of x+1 onto a cleared word. */
  method BytesDown(x: Word) returns (y: Word)
    ensures y == x / 0x100
  {
    y := 0;
    y := PutField(y, 0, 1, Field(x, 1, 1));
    y := PutField(y, 1, 1, Field(x, 2, 1));
    y := PutField(y, 2, 1, Field(x, 3, 1));
    Asm.Laid(Field(x, 1, 1), Field(x, 2, 1), Field(x, 3, 1));
    Asm.DownOne(x);
  }

  /** The byte burst of x onto byte 1 of a cleared word. */
  method BytesUp(x: Word) returns (y: Word)
    ensures y == Wrap(x * 0x100)
  {
    y := 0;
    y := PutField(y, 1, 1, Field(x, 0, 1));
    y := PutField(y, 2, 1, Field(x, 1, 1));
    y := PutField(y, 3, 1, Field(x, 2, 1));
    Asm.LaidUp(Field(x, 0, 1), Field(x, 1, 1), Field(x, 2, 1));
    Asm.UpOne(x);
  }

  // ----- consuming a word from its top bit -----

  /** The low c bits of x, moved to the top of a word. */
  function Top(x: Word, c: nat): (t: Word)
    requires c <= 32
  {
    TopFits(x, c);
    Low(x, c) * Pow2(32 - c)
  }

  lemma TopFits(x: Word, c: nat)
    requires c <= 32
    ensures 0 <= Low(x, c) * Pow2(32 - c) < M32
  {
    LowShr(x, c);
    Pow2Sum(c, 32 - c); Pow2At32();
    hide Low, Shr, Pow2;
    Product(Low(x, c), Pow2(c), Pow2(32 - c));
  }

  lemma Product(l: int, q: int, p: int)
    requires 0 <= l < q && p > 0 && q * p == M32
    ensures 0 <= l * p < M32
  {
    assert (q - 1) * p == q * p - p;
    MulAtMost(l, q - 1, p);
  }

  lemma {:induction false} LowStep(x: nat, c: nat)
    ensures Low(x, c + 1) == Bit(x, c) * Pow2(c) + Low(x, c)
    decreases c
  {
    if c > 0 {
      LowStep(x / 2, c - 1);
      var b, p := Bit(x, c), Pow2(c - 1);
      assert Low(x, c + 1) == 2 * Low(x / 2, c) + x % 2;
      assert b * (2 * p) == 2 * (b * p);
    }
  }

  /** The sign is the top remaining bit, and a doubling drops it. */
  lemma TopStep(x: Word, c: nat)
    requires 1 <= c <= 32
    ensures Neg(Top(x, c)) <==> Bit(x, c - 1) == 1
    ensures Twice(Top(x, c)) == Top(x, c - 1)
  {
    LowStep(x, c - 1);
    LowShr(x, c - 1);
    Pow2Sum(c - 1, 32 - c); Pow2At32();
    assert Pow2(33 - c) == 2 * Pow2(32 - c);
    var b, l, p, q := Bit(x, c - 1), Low(x, c - 1), Pow2(32 - c), Pow2(c - 1);
    assert q * p == M31 by { Pow2Sum(c - 1, 32 - c); }
    assert Top(x, c) == (b * q + l) * p && Top(x, c - 1) == l * (2 * p);
    hide Low, Pow2, Bit, Top, Shr;
    HalfWord(b, l, p, q);
  }

  lemma HalfWord(b: int, l: int, p: int, q: int)
    requires (b == 0 || b == 1) && 0 <= l < q && p > 0 && q * p == M31
    ensures 0 <= (b * q + l) * p < M32 && ((b * q + l) * p >= M31 <==> b == 1)
    ensures Wrap(2 * ((b * q + l) * p)) == l * (2 * p)
  {
    assert (b * q + l) * p == b * (q * p) + l * p;
    assert (q - 1) * p == q * p - p;
    MulAtMost(l, q - 1, p);
    assert 0 <= l * p < M31;
    assert l * (2 * p) == 2 * (l * p);
  }

  lemma TopWhole(x: Word)
    ensures Top(x, 32) == x && Shr(x, 32) == 0
  {
    Pow2At32();
    LowShr(x, 32);
    assert Pow2(0) == 1;
  }

  // ----- dividing by ten -----

  /** Each floor of the reciprocal chain loses less than one unit, and the factor is short by
      less than a tenth over the whole range, so the estimate is at most one below x / 10. */
  lemma Reciprocal(x: Word, q2: int, q3: int, q4: int, q5: int)
    requires q2 == 204 * x / 0x100 && q3 == q2 + q2 / 0x100 && q4 == q3 + q3 / 0x1_0000 && q5 == q4 / 8
    ensures 0 <= q2 < M32 && 0 <= q3 < M32 && 0 <= q4 < M32 && 0 <= q5
    ensures 0 <= x - 10 * q5 <= 13
  {
  }

  /** Splitting off the low byte keeps the scaled quotient exact. */
  lemma SplitByte(x: Word)
    ensures 204 * x / 0x100 == 204 * (x / 0x100) + 204 * (x % 0x100) / 0x100
    ensures 204 * (x / 0x100) < M32 && 204 * (x % 0x100) < 0x1_0000
  {
    var a, b := x / 0x100, x % 0x100;
    QuotientOf(204 * x, 0x100, 204 * a + 204 * b / 0x100, 204 * b % 0x100);
  }

  /** The registers and cells the routines work on. */
  class Rt {
    const e: Enc
    var r0: Word
    var r1: Word
    var macc: Word
    var mcnt: Word
    var mtmp: Word
    var mbyte: Word
    var dquo: Word
    var drem: Word
    var dta: Word
    var dtb: Word
    var dcnt: Word
    var sign: Word
    var lres: Word
    var lcnt: Word
    var acc: Word      // SNIFF_DATA
    var sctl: Word     // SNIFF_CTRL

    constructor (enc: Enc)
      ensures e == enc
    {
      e := enc;
    }

    /** The sub-byte shift by three, split at the byte boundary and merged. */
    method DownThree()
      modifies `dta, `dtb, `dquo
      ensures dquo == old(dquo) / 8
    {
      hide PutField, Field, Wrap, OrW;
      MergedThird(dquo);
      dta := BytesDown(dquo);
      dta := Wrap(32 * dta);
      dtb := Wrap(32 * dquo);
      dquo := 0;
      dquo := PutField(dquo, 0, 1, Field(dtb, 1, 1));
      dquo := OrW(dquo, dta);
    }

    /** The scaled quotient 204x / 256, its low byte multiplied apart. */
    method Scale()
      modifies `dquo, `dta, `dtb
      ensures dquo == 204 * r0 / 0x100
    {
      hide PutField, Field, Wrap, AndNotW, Add;
      Scaled(r0);
      dta := BytesDown(r0);
      dtb := AndNotW(r0, 0xFFFF_FF00);
      dquo := Wrap(204 * dta);
      dtb := Wrap(204 * dtb);
      dta := 0;
      dta := PutField(dta, 0, 1, Field(dtb, 1, 1));
      dquo := Add(dquo, dta);
    }

    /** q += q >> 8, then q += q >> 16. */
    method Refine()
      requires dquo + dquo / 0x100 + (dquo + dquo / 0x100) / 0x1_0000 < M32
      modifies `dquo, `dta
      ensures dquo == old(dquo + dquo / 0x100 + (dquo + dquo / 0x100) / 0x1_0000)
    {
      hide PutField, Field;
      dta := BytesDown(dquo);
      dquo := Add(dquo, dta);
      dta := 0;
      Asm.LaidOnce(dquo);
      dta := PutField(dta, 0, 2, Field(dquo, 2, 2));
      dquo := Add(dquo, dta);
    }

    /** x / 10 and x % 10 for every word, with no loop and one fixup. */
    method Udivmod10()
      modifies `r0, `r1, `dquo, `drem, `dta, `dtb
      ensures dquo == old(r0) / 10 && drem == old(r0) % 10 && r0 == dquo && r1 == drem
    {
      ghost var x: int := r0;
      ghost var q2 := 204 * x / 0x100;
      ghost var q3 := q2 + q2 / 0x100;
      ghost var q4 := q3 + q3 / 0x1_0000;
      Reciprocal(x, q2, q3, q4, q4 / 8);
      Scale();
      Refine();
      DownThree();
      hide Wrap, Add, Sub, Neg;
      TenTail(x, dquo);
      drem := Wrap(10 * dquo);
      drem := Sub(r0, drem);
      dta := Add(drem, 0xFFFF_FFF6);
      if !Neg(dta) {
        drem := dta;
        dquo := Add(dquo, 1);
      }
      r0 := dquo;
      r1 := drem;
    }

    // ----- multiplication -----

    /** Leading zero bytes of the multiplier retire eight bits at a time. */
    method SkipBytes(ghost m: Word) returns (done: bool, ghost c: nat)
      requires r1 == m && macc == 0 && mcnt == 31 && mbyte < 0x100
      modifies `r1, `mcnt, `mtmp, `mbyte
      ensures mbyte < 0x100 && (done ==> m == 0)
      ensures !done ==> 1 <= c <= 32 && mcnt == c - 1 && r1 == Top(m, c) && Shr(m, c) == 0
    {
      hide PutField, Field, Wrap, Shr, Top, Jneg;
      done, c := false, 32;
      TopWhole(m);
      var more := true;
      while more
        invariant mbyte < 0x100 && c % 8 == 0 && 8 <= c <= 32 && mcnt == c - 1 && r1 == Top(m, c) && Shr(m, c) == 0
        decreases more, c
      {
        TopByte(mbyte, r1);
        mbyte := PutField(mbyte, 0, 1, Field(r1, 3, 1));
        mtmp := Add(mbyte, ONES);
        JnegSmall(e, mtmp);
        if Jneg(e, mtmp) {
          SkipByte(m, c);
          mcnt := Add(mcnt, 0xFFFF_FFF8);
          JnegSmall(e, mcnt);
          if Jneg(e, mcnt) {
            done := true;
            return;
          }
          mtmp := BytesUp(r1);
          r1 := mtmp;
          c := c - 8;
        } else {
          more := false;
        }
      }
    }

    /** r0 * r1 modulo 2^32. The multiplier's byte cell is only ever written one byte wide. */
    method Mul()
      requires mbyte < 0x100
      modifies `r0, `r1, `macc, `mcnt, `mtmp, `mbyte
      ensures r0 == Wrap(old(r0) * old(r1)) && mbyte < 0x100
    {
      hide Wrap, Shr, Top, Jneg, Bit;
      ghost var x, m := r0, r1;
      macc, mcnt := 0, 31;
      ghost var c;
      var done;
      done, c := SkipBytes(m);
      ZeroProduct(x);
      while !done
        invariant mbyte < 0x100 && r0 == x
        invariant done ==> macc == Wrap((m as int) * x)
        invariant !done ==> 1 <= c <= 32 && mcnt == c - 1 && r1 == Top(m, c) && macc == Wrap(Shr(m, c) * x)
        decreases !done, c
      {
        TopStep(m, c);
        MulStep(x, m, c);
        macc := Twice(macc);
        if Neg(r1) { macc := Add(macc, r0); }
        r1 := Twice(r1);
        mcnt := Add(mcnt, ONES);
        JnegSmall(e, mcnt);
        done, c := Jneg(e, mcnt), c - 1;
        ShrNone(m);
      }
      Commute(m, x);
      r0 := macc;
    }

    // ----- division -----

    /** One round of restoring division: c bits of the dividend x are still to come. */
    method DivRound(ghost x: Word, ghost d: Word, ghost c: nat)
      requires 1 <= c <= 32 && r1 == d && r0 == Top(x, c)
      requires 0 < d < M31 ==> Shr(x, c) == dquo * d + drem && drem < d
      modifies `r0, `drem, `dquo
      ensures r0 == Top(x, c - 1)
      ensures 0 < d < M31 ==> Shr(x, c - 1) == dquo * d + drem && drem < d
    {
      hide Shr, Top, Bit;
      TopStep(x, c);
      ShrStep(x, c - 1);
      drem := Twice(drem);
      if Neg(r0) { drem := Add(drem, 1); }
      if 0 < d < M31 { Restore(Shr(x, c - 1), old(dquo), d, old(drem), Bit(x, c - 1)); }
      dquo := Twice(dquo);
      if drem >= r1 {
        drem := Sub(drem, r1);
        dquo := Add(dquo, 1);
      }
      r0 := Twice(r0);
    }

    /** Quotient and remainder for every nonzero divisor, those with the sign bit set and ten by
        their own routes. */
    method Udivmod()
      modifies `r0, `r1, `dquo, `drem, `dta, `dtb, `dcnt
      ensures old(r1) != 0 ==> dquo == old(r0) / old(r1) && drem == old(r0) % old(r1)
    {
      hide Shr, Top, Jneg;
      ghost var x, d := r0, r1;
      if r1 == 10 {
        Udivmod10();
      } else if Neg(r1) {
        if r0 < r1 {
          dquo, drem := 0, r0;
          QuotientOf(x, d, 0, x);
        } else {
          dquo, drem := 1, Sub(r0, r1);
          QuotientOf(x, d, 1, x - d);
        }
      } else {
        drem, dquo, dcnt := 0, 0, 31;
        ghost var c := 32;
        TopWhole(x);
        var done := false;
        while !done
          invariant r1 == d && 0 <= c <= 32 && r0 == Top(x, c) && (done <==> c == 0) && (c > 0 ==> dcnt == c - 1)
          invariant 0 < d ==> Shr(x, c) == dquo * d + drem && drem < d
          decreases c
        {
          DivRound(x, d, c);
          dcnt := Add(dcnt, ONES);
          JnegSmall(e, dcnt);
          done, c := Jneg(e, dcnt), c - 1;
        }
        ShrNone(x);
        if 0 < d { QuotientOf(x, d, dquo, drem); }
      }
    }

    /** r0 / r1 truncating toward zero. */
    method Sdiv()
      modifies `r0, `r1, `dquo, `drem, `dta, `dtb, `dcnt, `sign
      ensures old(r1) != 0 ==> r0 == Wrap(TruncDiv(Signed(old(r0)), Signed(old(r1))))
    {
      hide Wrap, TruncDiv, XorW;
      ghost var a, b := r0, r1;
      sign := 0;
      Flips();
      if Neg(r0) {
        r0 := Sub(0, r0);
        sign := XorW(sign, 1);
      }
      if Neg(r1) {
        r1 := Sub(0, r1);
        sign := XorW(sign, 1);
      }
      if b != 0 { Magnitudes(a, b); }
      Udivmod();
      r0 := dquo;
      if sign == 1 { r0 := Sub(0, r0); }
    }

    /** The remainder takes the dividend's sign. */
    method Srem()
      modifies `r0, `r1, `dquo, `drem, `dta, `dtb, `dcnt, `sign
      ensures old(r1) != 0 ==> r0 == Wrap(TruncRem(Signed(old(r0)), Signed(old(r1))))
    {
      hide Wrap, TruncRem;
      ghost var a, b := r0, r1;
      sign := 0;
      if Neg(r0) {
        r0 := Sub(0, r0);
        sign := 1;
      }
      if Neg(r1) { r1 := Sub(0, r1); }
      if b != 0 { Magnitudes(a, b); }
      Udivmod();
      r0 := drem;
      if sign == 1 { r0 := Sub(0, r0); }
    }

    // ----- shifts by a run-time count -----

    method Shl()
      modifies `r0, `r1
      ensures r0 == Wrap(Pow2(old(r1) % 32) * old(r0))
    {
      hide Wrap, Pow2, Jneg, AndNotW;
      ghost var x, n := r0, r1 % 32;
      CountMask(r1);
      r1 := AndNotW(r1, 0xFFFF_FFE0);
      ghost var k := 0;
      ZeroShift(x);
      while true
        invariant 0 <= k <= n && r1 == n - k && r0 == Wrap(Pow2(k) * x)
        decreases n - k
      {
        r1 := Add(r1, ONES);
        JnegSmall(e, r1);
        if Jneg(e, r1) { break; }
        OneShift(x, k);
        r0 := Twice(r0);
        k := k + 1;
      }
    }

    /** The accumulator as a move reads it: reversed while OUT_REV is on. */
    function Sniffed(): Word
      reads this
    {
      if sctl / 0x400 % 2 == 1 then Rev32(acc) else acc
    }

    /** Bit reversal through the sniffer; the control word ends with OUT_REV off, otherwise as it
        was. */
    method Reverse(x: Word, rev: Word, norm: Word) returns (y: Word)
      requires rev / 0x400 % 2 == 1
      modifies `acc, `sctl
      ensures y == Rev32(x) && sctl == norm
    {
      sctl := rev;
      acc := x;
      y := Sniffed();
      sctl := norm;
    }

    /** Counts under 16: reverse, double, reverse back. */
    method LshrRev()
      requires r1 < 16 && sctl / 0x400 % 2 == 0
      modifies `r0, `r1, `lres, `acc, `sctl
      ensures r0 == old(r0) / Pow2(old(r1)) && sctl == old(sctl)
    {
      hide Rev32, Pow2, Jneg, OrW, AndNotW, Shr;
      ghost var x, n := r0, r1;
      CtrlFlavours(sctl);
      var rev := OrW(sctl, 0x400);
      var norm := AndNotW(rev, 0x400);
      lres := Reverse(r0, rev, norm);
      ghost var k := 0;
      ShrNone(x);
      while true
        invariant 0 <= k <= n && r1 == n - k && lres == Rev32(Shr(x, k)) && sctl == norm
        decreases n - k
      {
        r1 := Add(r1, ONES);
        JnegSmall(e, r1);
        if Jneg(e, r1) { break; }
        ReverseShift(Shr(x, k));
        ShrMore(x, k);
        lres := Twice(lres);
        k := k + 1;
      }
      ReverseTwice(Shr(x, n));
      r0 := Reverse(lres, rev, norm);
      LowShr(x, n);
    }

    /** Larger counts: the result is rebuilt from the top bits. */
    method LshrSlow()
      requires r1 < 32
      modifies `r0, `lres, `lcnt
      ensures r0 == old(r0) / Pow2(r1)
    {
      hide Pow2, Jneg, Shr, Top, Bit;
      ghost var x, n := r0, r1;
      lres, lcnt := 0, 31;
      lcnt := Sub(lcnt, r1);
      ghost var c := 32;
      TopWhole(x);
      while true
        invariant n <= c <= 32 && lcnt == (if c > n then c - 1 - n else ONES) && r0 == Top(x, c) && lres == Shr(x, c)
        invariant r1 == n
        decreases c
      {
        JnegSmall(e, lcnt);
        if Jneg(e, lcnt) { break; }
        TopStep(x, c); ShrStep(x, c - 1);
        lres := Twice(lres);
        if Neg(r0) { lres := Add(lres, 1); }
        r0 := Twice(r0);
        lcnt := Add(lcnt, ONES);
        c := c - 1;
      }
      LowShr(x, n);
      r0 := lres;
    }

    /** The two routes of a logical right shift agree. */
    method Lshr()
      requires sctl / 0x400 % 2 == 0
      modifies `r0, `r1, `lres, `lcnt, `acc, `sctl
      ensures r0 == old(r0) / Pow2(old(r1) % 32) && sctl == old(sctl)
    {
      hide AndNotW, Pow2;
      CountMask(r1);
      r1 := AndNotW(r1, 0xFFFF_FFE0);
      if Signed(r1) < 16 {
        LshrRev();
      } else {
        LshrSlow();
      }
    }

    /** Arithmetic right shift: the result starts as the sign fill. */
    method Ashr()
      modifies `r0, `r1, `lres, `lcnt
      ensures r0 == Wrap(Signed(old(r0)) / Pow2(old(r1) % 32))
    {
      hide Pow2, Jneg, Top, Bit, AndNotW, Wrap, Signed;
      ghost var x, n := r0, r1 % 32;
      CountMask(r1);
      r1 := AndNotW(r1, 0xFFFF_FFE0);
      lcnt := 31;
      lcnt := Sub(lcnt, r1);
      SignFill(x);
      if Neg(r0) { lres := ONES; } else { lres := 0; }
      ghost var c := 32;
      TopWhole(x);
      while true
        invariant n <= c <= 32 && lcnt == (if c > n then c - 1 - n else ONES) && r0 == Top(x, c)
        invariant lres == Wrap(Signed(x) / Pow2(c))
        decreases c
      {
        JnegSmall(e, lcnt);
        if Jneg(e, lcnt) { break; }
        TopStep(x, c);
        FloorBit(x, c);
        lres := Twice(lres);
        if Neg(r0) { lres := Add(lres, 1); }
        r0 := Twice(r0);
        lcnt := Add(lcnt, ONES);
        c := c - 1;
      }
      r0 := lres;
    }
  }

  lemma CountMask(x: Word)
    ensures AndNotW(x, 0xFFFF_FFE0) == x % 32
  {
    assert Pow2(5) == 32;
    Pow2At32();
    AndNotLow(x, 5, 32); LowShr(x, 5);
  }

  lemma ZeroShift(x: Word)
    ensures Wrap(Pow2(0) * x) == x
  {
    WrapWord(x);
  }

  lemma OneShift(x: Word, k: nat)
    ensures Twice(Wrap(Pow2(k) * x)) == Wrap(Pow2(k + 1) * x)
  {
    var p := Pow2(k);
    assert Pow2(k + 1) == 2 * p;
    hide Pow2, Wrap;
    DoubleAndAdd(p, x);
  }

  lemma ShrMore(x: nat, k: nat)
    ensures Shr(x, k + 1) == Shr(x, k) / 2
  {
    Shifts.ShrShr(x, k, 1);
    assert Shr(Shr(x, k), 1) == Shr(Shr(x, k) / 2, 0);
  }

  /** Setting OUT_REV and clearing it again gives the control word back if it was off. */
  lemma CtrlFlavours(s: Word)
    requires s / 0x400 % 2 == 0
    ensures OrW(s, 0x400) / 0x400 % 2 == 1 && AndNotW(OrW(s, 0x400), 0x400) == s
  {
    var r := OrW(s, 0x400);
    TenthBit(s); TenthBit(r);
    OneBit(10);
    OrBit(s, 0x400, 10);
    forall i: nat ensures Bit(AndNotW(r, 0x400), i) == Bit(s, i) {
      AndNotBit(r, 0x400, i); OrBit(s, 0x400, i); OnlyBit(10, i);
    }
    Pow2At32(); OpsBound(r, 0x400, 32);
    BitsEqual(AndNotW(r, 0x400), s, 32);
  }

  lemma TenthBit(s: Word)
    ensures Bit(s, 10) == s / 0x400 % 2
  {
    BitShift(s, 10, 0); LowShr(s, 10);
    assert Pow2(10) == 0x400;
  }

  lemma OneBit(k: nat)
    requires k == 10
    ensures Bit(0x400, k) == 1
  {
    OnlyBit(k, k);
  }

  lemma OnlyBit(k: nat, i: nat)
    requires k == 10
    ensures Bit(0x400, i) == if i == k then 1 else 0
  {
    assert Pow2(10) == 0x400;
    PowerBit(10, i);
  }

  lemma {:induction false} PowerBit(k: nat, i: nat)
    ensures Bit(Pow2(k), i) == if i == k then 1 else 0
    decreases k
  {
    if k == 0 {
      if i > 0 { BitZero(i - 1); }
    } else if i > 0 {
      PowerBit(k - 1, i - 1);
    }
  }

  // ----- bit reversal -----

  lemma {:induction false} RevTop(y: nat, n: nat)
    ensures Rev(y, n + 1) == 2 * Rev(y, n) + Bit(y, n)
    decreases n
  {
    if n > 0 {
      RevTop(y / 2, n - 1);
      assert Pow2(n) == 2 * Pow2(n - 1);
      var b, p := y % 2, Pow2(n - 1);
      assert b * (2 * p) == 2 * (b * p);
    }
  }

  /** Doubling the reversed word drops the low bit of the original. */
  lemma ReverseShift(x: Word)
    ensures Twice(Rev32(x)) == Rev32(x / 2)
  {
    Pow2At32();
    RevTop(x / 2, 31);
    HighBit31(x / 2);
    var r := Rev(x / 2, 31);
    assert Rev(x, 32) == x % 2 * M31 + r;
    assert r < M31;
    hide Rev, Pow2;
  }

  lemma HighBit31(y: nat)
    requires y < M31
    ensures Bit(y, 31) == 0
  {
    Pow2At32();
    BitTop(y, 31);
  }

  lemma {:induction false} RevLow(z: nat, p: nat, n: nat, b: nat)
    requires p == Pow2(n) && z < p
    ensures Rev(b * p + z, n) == Rev(z, n)
    decreases n
  {
    if n > 0 {
      var q := Pow2(n - 1);
      assert p == 2 * q;
      assert b * p == 2 * (b * q);
      assert (b * p + z) / 2 == b * q + z / 2 && (b * p + z) % 2 == z % 2;
      RevLow(z / 2, q, n - 1, b);
    }
  }

  lemma {:induction false} RevRev(x: nat, n: nat)
    requires x < Pow2(n)
    ensures Rev(Rev(x, n), n) == x
    decreases n
  {
    if n > 0 {
      var p, r := Pow2(n - 1), Rev(x / 2, n - 1);
      RevRev(x / 2, n - 1);
      RevTop(Rev(x, n), n - 1);
      RevLow(r, p, n - 1, x % 2);
      TopOf(x % 2, r, p, n - 1);
    }
  }

  lemma {:induction false} TopOf(b: nat, r: nat, p: nat, n: nat)
    requires b <= 1 && p == Pow2(n) && r < p
    ensures Bit(b * p + r, n) == b
    decreases n
  {
    if n > 0 {
      var q := Pow2(n - 1);
      assert b * p == 2 * (b * q);
      assert (b * p + r) / 2 == b * q + r / 2;
      TopOf(b, r / 2, q, n - 1);
    }
  }

  lemma ReverseTwice(x: Word)
    ensures Rev32(Rev32(x)) == x
  {
    Pow2At32();
    RevRev(x, 32);
  }

  // ----- signed floors, bit by bit -----

  lemma SignFill(x: Word)
    ensures Wrap(Signed(x) / Pow2(32)) == if Neg(x) then ONES else 0
  {
    Pow2At32();
  }

  lemma FloorBit(x: Word, c: nat)
    requires 1 <= c <= 32
    ensures var t := Twice(Wrap(Signed(x) / Pow2(c)));
            Wrap(Signed(x) / Pow2(c - 1)) == if Bit(x, c - 1) == 1 then Add(t, 1) else t
  {
    var p, a := Pow2(c - 1), Signed(x);
    assert Pow2(c) == 2 * p;
    Pow2Sum(c - 1, 33 - c); Pow2At32();
    assert Pow2(33 - c) == 2 * Pow2(32 - c);
    BitShift(x, c - 1, 0); LowShr(x, c - 1);
    assert Bit(x, c - 1) == x / p % 2;
    hide Pow2, Bit, Signed, Wrap, Shr, Low;
    SignedParity(x, p, Pow2(32 - c));
    HalfFloor(a, p);
    var h := a / (2 * p);
    AddWraps(h, h); AddWraps(2 * h, 1); WrapWord(1);
  }

  lemma HalfFloor(a: int, p: int)
    requires p > 0
    ensures a / p == 2 * (a / (2 * p)) + a / p % 2
  {
    var q := a / p;
    var h, b := q / 2, q % 2;
    DivMod(a, p);
    assert a == (2 * p) * h
        + (p * b + a % p) by { assert p * q == p * (2 * h + b); assert p * (2 * h + b) == (2 * p) * h + p * b; }
    assert 0 <= p * b + a % p < 2 * p;
    assert (2 * p) * h == h * (2 * p);
    QuotientOf(a, 2 * p, h, p * b + a % p);
  }

  /** The signed and unsigned quotients have the same parity. */
  lemma SignedParity(x: Word, p: int, k: int)
    requires p > 0 && p * (2 * k) == M32
    ensures Signed(x) / p % 2 == x / p % 2
  {
    if Neg(x) {
      var q := x / p;
      DivMod(x, p);
      assert (q - 2 * k) * p == p * q - p * (2 * k);
      QuotientOf(x - M32, p, q - 2 * k, x % p);
      assert (q - 2 * k) % 2 == q % 2;
    }
  }


  lemma Flips()
    ensures XorW(0, 1) == 1 && XorW(1, 1) == 0
  {
    FlipOne(0); FlipOne(1);
  }

  /** A restoring step: the next bit shifted in, the divisor taken out if it fits. */
  lemma Restore(y: nat, q: Word, d: Word, r: Word, b: int)
    requires 0 < d < M31 && r < d && (b == 0 || b == 1) && y < M32 && y == 2 * (q * d + r) + b
    ensures 2 * r + b < M32 && 2 * q < M32
    ensures if 2 * r + b >= d then 2 * q + 1 < M32 && y == (2 * q + 1) * d + (2 * r + b - d) && 2 * r + b - d < d
            else y == (2 * q) * d + (2 * r + b)
  {
    assert (2 * q) * d == 2 * (q * d);
    assert (2 * q + 1) * d == 2 * (q * d) + d;
    QuotientSmall(2 * q, d, y);
    if 2 * r + b >= d { QuotientSmall(2 * q + 1, d, y); }
  }

  lemma QuotientSmall(q: int, d: int, y: int)
    requires 0 <= q && d >= 1 && q * d <= y
    ensures q <= y
  {
    MulAtMost(1, d, q + 1);
    assert (q + 1) * d == q * d + d;
    assert q * d >= q by { Spread(q, d); }
  }

  lemma Spread(q: int, d: int)
    requires 0 <= q && d >= 1
    ensures q * d >= q
  {
    assert q * d == q * (d - 1) + q;
    assert q * (d - 1) >= 0;
  }

  function Magnitude(a: Word): Word {
    if Neg(a) then Sub(0, a) else a
  }

  /** Signed division through the magnitudes, INT_MIN included. */
  lemma Magnitudes(a: Word, b: Word)
    requires b != 0
    ensures Magnitude(b) != 0
    ensures var q := Magnitude(a) / Magnitude(b);
            Wrap(TruncDiv(Signed(a), Signed(b))) == if Neg(a) <==> Neg(b) then q else Sub(0, q)
    ensures var r := Magnitude(a) % Magnitude(b);
            Wrap(TruncRem(Signed(a), Signed(b))) == if Neg(a) then Sub(0, r) else r
  {
    hide Wrap, TruncDiv, TruncRem, Magnitude, Signed, Neg, Sub;
    MagnitudeIs(a); MagnitudeIs(b);
    var m, n := Magnitude(a), Magnitude(b);
    SignCases(Signed(a), Signed(b), m, n);
    var q, r := m / n, m % n;
    assert 0 <= q <= m && 0 <= r <= m by { DivMod(m, n); Spread(q, n); }
    SubIsWrap(0, q); SubIsWrap(0, r); WrapWord(q); WrapWord(r);
  }

  lemma MagnitudeIs(a: Word)
    ensures Magnitude(a) == (if Signed(a) < 0 then -Signed(a) else Signed(a)) && (Neg(a) <==> Signed(a) < 0)
    ensures Signed(a) == 0 ==> a == 0
  {
  }

  lemma SignCases(x: int, y: int, m: int, n: int)
    requires y != 0 && m == (if x < 0 then -x else x) && n == (if y < 0 then -y else y)
    ensures TruncDiv(x, y) == if (x < 0) == (y < 0) then m / n else -(m / n)
    ensures TruncRem(x, y) == if x < 0 then -(m % n) else m % n
  {
    var q := m / n;
    DivMod(m, n);
    assert y * q == (if y < 0 then -(n * q) else n * q);
    assert y * (-q) == -(y * q);
  }


  lemma ZeroProduct(x: int)
    ensures Wrap(0 * x) == 0
  {
  }

  lemma ShrNone(m: Word)
    ensures Shr(m, 0) == m
  {
  }

  /** One more multiplier bit. */
  lemma MulStep(x: Word, m: Word, c: nat)
    requires c >= 1
    ensures var t := Twice(Wrap(Shr(m, c) * x));
            Wrap(Shr(m, c - 1) * x) == if Bit(m, c - 1) == 1 then Add(t, x) else t
  {
    ShrStep(m, c - 1);
    hide Shr, Bit, Wrap, Add;
    DoubleAndAdd(Shr(m, c), x);
  }

  lemma Commute(a: int, b: int)
    ensures a * b == b * a
  {
  }

  lemma TopByte(mbyte: Word, x: Word)
    requires mbyte < 0x100
    ensures PutField(mbyte, 0, 1, Field(x, 3, 1)) == x / 0x100_0000 < 0x100
  {
  }

  /** A zero top byte: eight more bits of the multiplier are known to be zero. */
  lemma SkipByte(m: Word, c: nat)
    requires c % 8 == 0 && 8 <= c <= 32 && Shr(m, c) == 0 && Top(m, c) < 0x100_0000
    ensures Shr(m, c - 8) == 0 && Wrap(Top(m, c) * 0x100) == Top(m, c - 8) && (c == 8 ==> m == 0)
  {
    hide Low, Shr, Pow2;
    BytePowers(c);
    LowShr(m, c); LowShr(m, c - 8);
    var p, q := Pow2(32 - c), Pow2(c - 8);
    assert Low(m, c) == m;
    BelowQuotient(m, p, q);
    assert Low(m, c - 8) == m && Shr(m, c - 8) == 0;
    assert m * p * 0x100 == m * (p * 0x100);
    WrapWord(m * p * 0x100);
  }

  lemma BytePowers(c: nat)
    requires 8 <= c <= 32
    ensures Pow2(c - 8) * Pow2(32 - c) == 0x100_0000 && Pow2(40 - c) == Pow2(32 - c) * 0x100
    ensures c == 8 ==> Pow2(c - 8) == 1
  {
    Pow2At32();
    assert Pow2(8) == 0x100 && Pow2(0) == 1;
    Pow2Sum(c - 8, 32 - c); Pow2Sum(32 - c, 8); Pow2Sum(24, 8);
  }

  lemma BelowQuotient(m: int, p: int, q: int)
    requires p > 0 && q > 0 && q * p == 0x100_0000 && 0 <= m * p < 0x100_0000
    ensures m < q && m / q == (if m < 0 then m / q else 0) && m % q == (if m < 0 then m % q else m)
  {
    if m >= q { MulAtMost(q, m, p); }
  }


  lemma MergedThird(q: Word)
    ensures OrW(PutField(0, 0, 1, Field(Wrap(32 * q), 1, 1)), Wrap(32 * (q / 0x100))) == q / 8
  {
    hide PutField, Field, OrW, Low, Shr, Pow2, Wrap;
    SmallPowers();
    ByteAlone(Wrap(32 * q));
    Shifts.MiddleByte(q, 3);
    LowShr(q, 8); LowShr(q, 3);
    var hi: Word := 32 * (q / 0x100);
    WrapWord(hi);
    Shifts.Merged(q, 3, Field(Wrap(32 * q), 1, 1), hi);
  }

  lemma SmallPowers()
    ensures Pow2(5) == 32 && Pow2(8) == 0x100 && Pow2(3) == 8
  {
  }

  lemma ByteAlone(w: Word)
    ensures PutField(0, 0, 1, Field(w, 1, 1)) == Field(w, 1, 1)
    ensures w < 0x1_0000 ==> Field(w, 1, 1) == w / 0x100
  {
  }

  lemma Scaled(x: Word)
    ensures var b: Word := Wrap(204 * AndNotW(x, 0xFFFF_FF00));
            Add(Wrap(204 * (x / 0x100)), PutField(0, 0, 1, Field(b, 1, 1))) == 204 * x / 0x100
  {
    hide AndNotW, PutField, Field;
    LowByteMask(x);
    SplitByte(x);
    ByteAlone(204 * (x % 0x100));
    assert 204 * x / 0x100 < M32;
  }

  /** The remainder of an estimate at most one short, and its single fixup. */
  lemma TenTail(x: Word, q: Word)
    requires 0 <= x - 10 * q <= 13
    ensures var r := Sub(x, Wrap(10 * q)); var a := Add(r, 0xFFFF_FFF6);
            if Neg(a) then q == x / 10 && r == x % 10 else Add(q, 1) == x / 10 && a == x % 10
  {
  }

  lemma LowByteMask(x: Word)
    ensures AndNotW(x, 0xFFFF_FF00) == x % 0x100
  {
    assert Pow2(8) == 0x100;
    Pow2At32();
    AndNotLow(x, 8, 32); LowShr(x, 8);
  }
}
