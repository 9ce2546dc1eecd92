/** The CTRL words the machine's channels carry, and that decoding undoes encoding on both SKUs. */
module Control {
  import opened Words
  import opened Bits
  import opened Core
  import opened Chip

  /** The fields program and machinery CTRL words set; the rest are fixed: enabled, unpaced,
      low priority, quiet, forward strides. A nonzero ring is on the write side. */
  datatype Fields = Fields(sizeLog: int, incrR: bool, incrW: bool, ring: int, bswap: bool, sniff: bool, chain: int) {
    predicate Ok() {
      0 <= sizeLog <= 2 && 0 <= ring <= 15 && 0 <= chain < SLOTS
    }
  }

  function On(b: bool): int {
    if b then 1 else 0
  }

  function Encode(v: Variant, f: Fields): (c: Word)
    requires f.Ok()
  {
    1 + 4 * f.sizeLog + 0x10 * On(f.incrR) + v.IncrWrite() * On(f.incrW) + v.RingSize() * f.ring +
    v.RingSel() * On(f.ring > 0) + v.ChainTo() * f.chain + v.TreqSel() * PERMANENT + v.Quiet()
        + v.Bswap() * On(f.bswap) +
    v.SniffEn() * On(f.sniff)
  }

  /** A field between a lower part and a rest. */
  lemma Slice(c: int, w: int, m: int, field: int, rest: int, lo: int)
    requires w > 0 && m > 0 && c == (field + m * rest) * w + lo && 0 <= lo < w && 0 <= field < m
    ensures c / w % m == field
  {
    QuotientOf(c, w, field + m * rest, lo);
    QuotientOf(field + m * rest, m, rest, field);
  }

  lemma Rp2040Low(f: Fields)
    requires f.Ok()
    ensures var c := Encode(Rp2040, f);
            c % 2 == 1 && c / 2 % 2 == 0 && c / 4 % 4 == f.sizeLog && c / 0x10 % 2 == On(f.incrR)
                && c / 0x20 % 2 == On(f.incrW) &&
            c / 0x40 % 16 == f.ring && c / 0x400 % 2 == On(f.ring > 0)
  {
    var c := Encode(Rp2040, f);
    var top := f.chain + 16 * (PERMANENT + 64 * (1 + 2 * (On(f.bswap) + 2 * On(f.sniff))));
    var ring := f.ring + 16 * (On(f.ring > 0) + 2 * top);
    var incr := On(f.incrR) + 2 * (On(f.incrW) + 2 * ring);
    Slice(c, 1, 2, 1, 2 * (f.sizeLog + 4 * incr), 0);
    Slice(c, 2, 2, 0, f.sizeLog + 4 * incr, 1);
    Slice(c, 4, 4, f.sizeLog, incr, 1);
    Slice(c, 0x10, 2, On(f.incrR), On(f.incrW) + 2 * ring, 1 + 4 * f.sizeLog);
    Slice(c, 0x20, 2, On(f.incrW), ring, 1 + 4 * f.sizeLog + 0x10 * On(f.incrR));
    Slice(c, 0x40, 16, f.ring, On(f.ring > 0) + 2 * top, 1 + 4 * f.sizeLog + 0x10 * On(f.incrR) + 0x20 * On(f.incrW));
    Slice(c, 0x400, 2, On(f.ring > 0), top,
        1 + 4 * f.sizeLog + 0x10 * On(f.incrR) + 0x20 * On(f.incrW) + 0x40 * f.ring);
  }

  lemma Rp2040High(f: Fields)
    requires f.Ok()
    ensures var c := Encode(Rp2040, f);
            c / 0x800 % 16 == f.chain && c / 0x8000 % 64 == PERMANENT && c / 0x20_0000 % 2 == 1 &&
            c / 0x40_0000 % 2 == On(f.bswap) && c / 0x80_0000 % 2 == On(f.sniff) && c / 0x100_0000 % 2 == 0
  {
    var c := Encode(Rp2040, f);
    var lo := 1 + 4 * f.sizeLog + 0x10 * On(f.incrR) + 0x20 * On(f.incrW) + 0x40 * f.ring + 0x400 * On(f.ring > 0);
    var quiet := 1 + 2 * (On(f.bswap) + 2 * On(f.sniff));
    Slice(c, 0x800, 16, f.chain, PERMANENT + 64 * quiet, lo);
    Slice(c, 0x8000, 64, PERMANENT, quiet, lo + 0x800 * f.chain);
    Slice(c, 0x20_0000, 2, 1, On(f.bswap) + 2 * On(f.sniff), lo + 0x800 * f.chain + 0x8000 * PERMANENT);
    Slice(c, 0x40_0000, 2, On(f.bswap), On(f.sniff), lo + 0x800 * f.chain + 0x8000 * PERMANENT + 0x20_0000);
    Slice(c, 0x80_0000, 2, On(f.sniff), 0,
        lo + 0x800 * f.chain + 0x8000 * PERMANENT + 0x20_0000 + 0x40_0000 * On(f.bswap));
    Slice(c, 0x100_0000, 2, 0, 0, c);
  }

  lemma Rp2350Low(f: Fields)
    requires f.Ok()
    ensures var c := Encode(Rp2350, f);
            c % 2 == 1 && c / 2 % 2 == 0 && c / 4 % 4 == f.sizeLog && c / 0x10 % 2 == On(f.incrR)
                && c / 0x20 % 2 == 0 &&
            c / 0x40 % 2 == On(f.incrW) && c / 0x80 % 2 == 0 && c / 0x100 % 16 == f.ring
                && c / 0x1000 % 2 == On(f.ring > 0)
  {
    var c := Encode(Rp2350, f);
    var top := f.chain + 16 * (PERMANENT + 64 * (1 + 2 * (On(f.bswap) + 2 * On(f.sniff))));
    var ring := f.ring + 16 * (On(f.ring > 0) + 2 * top);
    var incr := On(f.incrR) + 2 * (0 + 2 * (On(f.incrW) + 2 * (0 + 2 * ring)));
    var lo := 1 + 4 * f.sizeLog + 0x10 * On(f.incrR);
    Slice(c, 1, 2, 1, 2 * (f.sizeLog + 4 * incr), 0);
    Slice(c, 2, 2, 0, f.sizeLog + 4 * incr, 1);
    Slice(c, 4, 4, f.sizeLog, incr, 1);
    Slice(c, 0x10, 2, On(f.incrR), 2 * (On(f.incrW) + 4 * ring), 1 + 4 * f.sizeLog);
    Slice(c, 0x20, 2, 0, On(f.incrW) + 4 * ring, lo);
    Slice(c, 0x40, 2, On(f.incrW), 2 * ring, lo);
    Slice(c, 0x80, 2, 0, ring, lo + 0x40 * On(f.incrW));
    Slice(c, 0x100, 16, f.ring, On(f.ring > 0) + 2 * top, lo + 0x40 * On(f.incrW));
    Slice(c, 0x1000, 2, On(f.ring > 0), top, lo + 0x40 * On(f.incrW) + 0x100 * f.ring);
  }

  lemma Rp2350High(f: Fields)
    requires f.Ok()
    ensures var c := Encode(Rp2350, f);
            c / 0x2000 % 16 == f.chain && c / 0x2_0000 % 64 == PERMANENT && c / 0x80_0000 % 2 == 1 &&
            c / 0x100_0000 % 2 == On(f.bswap) && c / 0x200_0000 % 2 == On(f.sniff) && c / 0x400_0000 % 2 == 0
  {
    var c := Encode(Rp2350, f);
    var lo := 1 + 4 * f.sizeLog + 0x10 * On(f.incrR) + 0x40 * On(f.incrW) + 0x100 * f.ring + 0x1000 * On(f.ring > 0);
    var quiet := 1 + 2 * (On(f.bswap) + 2 * On(f.sniff));
    Slice(c, 0x2000, 16, f.chain, PERMANENT + 64 * quiet, lo);
    Slice(c, 0x2_0000, 64, PERMANENT, quiet, lo + 0x2000 * f.chain);
    Slice(c, 0x80_0000, 2, 1, On(f.bswap) + 2 * On(f.sniff), lo + 0x2000 * f.chain + 0x2_0000 * PERMANENT);
    Slice(c, 0x100_0000, 2, On(f.bswap), On(f.sniff), lo + 0x2000 * f.chain + 0x2_0000 * PERMANENT + 0x80_0000);
    Slice(c, 0x200_0000, 2, On(f.sniff), 0,
        lo + 0x2000 * f.chain + 0x2_0000 * PERMANENT + 0x80_0000 + 0x100_0000 * On(f.bswap));
    Slice(c, 0x400_0000, 2, 0, 0, c);
  }

  /** Decoding an encoded CTRL word gives its fields back, on both SKUs; the word is nonzero and
      does not carry the BUSY bit. */
  lemma DecodeEncode(v: Variant, f: Fields)
    requires f.Ok()
    ensures var s := Size(f.sizeLog);
            Decode(v, Encode(v, f)) ==
            Decoded(true, false, f.sizeLog, f.chain, PERMANENT, if f.incrR then s else 0, if f.incrW then s else 0,
                    0, if f.ring == 0 then 0 else Pow2(f.ring), f.bswap, f.sniff, true)
    ensures Encode(v, f) != 0 && Flag(Encode(v, f), 1) && !Flag(Encode(v, f), v.Busy()) && Flag(Encode(v, f), v.Quiet())
  {
    hide Encode, Pow2;
    var c := Encode(v, f);
    match v
    case Rp2040 => Rp2040Low(f); Rp2040High(f);
    case Rp2350 => Rp2350Low(f); Rp2350High(f);
  }
}
