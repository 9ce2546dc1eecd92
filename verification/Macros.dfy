/** The block sequence of every assembler macro (host/dmaasm/emit.go) in both encodings. */
module Macros {
  import opened Words
  import opened Core
  import opened Planner
  import opened Compact

  datatype Enc = Classic | Compact

  /** The register cells the macros use and the literal pool. */
  datatype Regs = Regs(env: Env, zero: int, at2: int) {
    predicate Ok() {
      && env.Ok() && zero % 4 == 0 && at2 % 4 == 0
      && zero != env.at && zero != env.nul && zero != at2 && at2 != env.at && at2 != env.nul
      && !env.Pool(at2 / 4)
    }

    function Lit(v: Word): Loc
      requires v in env.lits
    {
      Mem(env.lits[v])
    }
  }

  // ----- block forms -----

  /** A plain 32-bit move. */
  function Pl(src: Loc, dst: Loc): Block {
    Block(src, dst, 1, PLAIN, false)
  }

  /** A move into the null sink, observed by the sniffer: the accumulator gains the source. */
  function Sn(r: Regs, src: Loc): Block {
    Block(src, Mem(r.env.nul), 1, SNIFF, false)
  }

  /** A byte-swapped move. */
  function Bs(src: Loc, dst: Loc): Block {
    Block(src, dst, 1, BSWAP, false)
  }

  // ----- arithmetic -----

  function AddM(r: Regs, a: Loc, b: Loc, d: Loc): seq<Block> {
    [Pl(a, Acc), Sn(r, b), Pl(Acc, d)]
  }

  /** The accumulator becomes a - b. */
  function SubInto(r: Regs, a: Loc, b: Loc): seq<Block>
    requires ONES in r.env.lits && 1 in r.env.lits
  {
    [Pl(b, Acc), Pl(r.Lit(ONES), AccXor)] + [Sn(r, r.Lit(1)), Sn(r, a)]
  }

  function SubM(r: Regs, a: Loc, b: Loc, d: Loc): seq<Block>
    requires ONES in r.env.lits && 1 in r.env.lits
  {
    SubInto(r, a, b) + [Pl(Acc, d)]
  }

  function OrM(a: Loc, b: Loc, d: Loc): seq<Block> {
    [Pl(b, Acc), Pl(a, AccSet), Pl(Acc, d)]
  }

  function XorM(a: Loc, b: Loc, d: Loc): seq<Block> {
    [Pl(b, Acc), Pl(a, AccXor), Pl(Acc, d)]
  }

  function AndNotM(a: Loc, b: Loc, d: Loc): seq<Block> {
    [Pl(a, Acc), Pl(b, AccClr), Pl(Acc, d)]
  }

  function AndM(r: Regs, a: Loc, b: Loc, d: Loc): seq<Block>
    requires ONES in r.env.lits
  {
    [Pl(a, Acc), Pl(r.Lit(ONES), AccXor), Pl(Acc, Mem(r.env.at))] + [Pl(b, Acc), Pl(Mem(r.env.at), AccClr), Pl(Acc, d)]
  }

  function ShlM(r: Regs, a: Loc, d: Loc): seq<Block> {
    [Pl(a, Acc), Sn(r, a), Pl(Acc, d)]
  }

  /** The doublings and additions of the compact multiply, from bit i down; nothing is emitted
      before the top set bit. */
  function MulSteps(r: Regs, a: Loc, k: nat, i: nat, started: bool): seq<Block> {
    var set1 := Bit(k, i) == 1;
    var here := (if started then [Sn(r, Acc)] else []) + (if set1 then [Sn(r, a)] else []);
    if i == 0 then here else here + MulSteps(r, a, k, i - 1, started || set1)
  }

  function MulcM(e: Enc, r: Regs, a: Loc, k: Word, d: Loc): seq<Block> {
    match e
    case Classic => [Pl(Mem(r.zero), Acc), Block(a, Mem(r.env.nul), k, SNIFF, false), Pl(Acc, d)]
    case Compact => [Pl(Mem(r.zero), Acc)] + MulSteps(r, a, k, 31, false) + [Pl(Acc, d)]
  }

  // ----- dispatch -----

  /** The sign dispatch: the swapped word is in the accumulator (classic) or in at (compact). */
  function SignTail(e: Enc, r: Regs, pair: Loc): seq<Block>
    requires 0xFFFFFF7F in r.env.lits
  {
    (match e case Classic => [] case Compact => [Pl(Mem(r.env.at), Acc)]) +
    [Pl(r.Lit(0xFFFFFF7F), AccClr), Sn(r, pair), Pl(Acc, Pc)]
  }

  /** jsign swaps straight into the accumulator in both encodings. */
  function JsignM(r: Regs, v: Loc, pair: Loc): seq<Block>
    requires 0xFFFFFF7F in r.env.lits
  {
    [Bs(v, Acc)] + SignTail(Classic, r, pair)
  }

  function JnegMask(e: Enc): Word {
    match e case Classic => 0xFFFFFFEF case Compact => 0xFFFFFFF7
  }

  function JnegM(e: Enc, r: Regs, v: Loc, tramp: Loc): seq<Block>
    requires JnegMask(e) in r.env.lits
  {
    [Bs(v, Acc)] + [Pl(r.Lit(JnegMask(e)), AccClr), Sn(r, tramp), Pl(Acc, Pc)]
  }

  function JboolM(e: Enc, r: Regs, v: Loc, tramp: Loc): seq<Block> {
    match e
    case Classic => [Pl(Mem(r.zero), Acc), Block(v, Mem(r.env.nul), 16, SNIFF, false)] + [Sn(r, tramp), Pl(Acc, Pc)]
    case Compact =>
        [Pl(Mem(r.zero), Acc), Sn(r, v)] + [Sn(r, Acc), Sn(r, Acc), Sn(r, Acc)] + [Sn(r, tramp), Pl(Acc, Pc)]
  }

  /** The tested word of a comparison, swapped where the dispatch tail expects it. */
  function Swapped(e: Enc, r: Regs): seq<Block> {
    match e case Classic => [Bs(Acc, Acc)] case Compact => [Bs(Acc, Mem(r.env.at))]
  }

  function JeqM(e: Enc, r: Regs, a: Loc, b: Loc, pair: Loc): seq<Block>
    requires ONES in r.env.lits && 1 in r.env.lits && 0xFFFFFF7F in r.env.lits
  {
    var at := Mem(r.env.at);
    match e
    case Classic =>
      SubInto(r, a, b) + [Pl(Acc, at)] +
      [Pl(r.Lit(ONES), AccXor), Sn(r, r.Lit(1)), Pl(at, AccSet)] + Swapped(e, r) + SignTail(e, r, pair)
    case Compact =>
      SubInto(r, a, b) + [Pl(Acc, at)] +
      [Pl(at, Acc), Pl(r.Lit(ONES), AccXor), Sn(r, r.Lit(1))] + [Pl(Acc, Mem(r.at2))] +
      [Pl(Mem(r.at2), Acc), Pl(at, AccSet)] + Swapped(e, r) + SignTail(e, r, pair)
  }

  /** The common frame of jlt and jltu: the first mask goes to at, the masked difference to at2
      (the compact form reseeds it unsniffed), and the second term is merged in. */
  function Ordered(e: Enc, r: Regs, a: Loc, b: Loc, mask: seq<Block>, term: seq<Block>, pair: Loc): seq<Block>
    requires ONES in r.env.lits && 1 in r.env.lits && 0xFFFFFF7F in r.env.lits
  {
    var at, at2 := Mem(r.env.at), Mem(r.at2);
    mask + [Pl(Acc, at)] + SubInto(r, a, b) +
    (match e case Classic => [] case Compact => [Pl(Acc, at2), Pl(at2, Acc)]) +
    [Pl(at, AccClr), Pl(Acc, at2)] + term + [Pl(at2, AccSet)] + Swapped(e, r) + SignTail(e, r, pair)
  }

  function JltM(e: Enc, r: Regs, a: Loc, b: Loc, pair: Loc): seq<Block>
    requires ONES in r.env.lits && 1 in r.env.lits && 0xFFFFFF7F in r.env.lits
  {
    Ordered(e, r, a, b, [Pl(a, Acc), Pl(b, AccXor)], [Pl(a, Acc), Pl(b, AccClr)], pair)
  }

  function JltuM(e: Enc, r: Regs, a: Loc, b: Loc, pair: Loc): seq<Block>
    requires ONES in r.env.lits && 1 in r.env.lits && 0xFFFFFF7F in r.env.lits
  {
    Ordered(e, r, a, b, [Pl(a, Acc), Pl(b, AccClr)], [Pl(b, Acc), Pl(a, AccClr)], pair)
  }
}
