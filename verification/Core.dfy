/** What one DMA transfer does to the part of the machine a program can name: memory, the
    sniffer, the fetch channel's pointers and the bank counts. Both encodings of a program
    (16-byte blocks, 8-byte records) move data with this one step. */
module Core {
  import opened Words

  /** A bus location a program block may read or write. */
  datatype Loc =
    | Mem(addr: int)      // a byte address in memory
    | Acc                 // SNIFF_DATA, the accumulator
    | AccXor              // SNIFF_DATA through the XOR alias
    | AccSet              // SNIFF_DATA through the SET alias
    | AccClr              // SNIFF_DATA through the CLR alias
    | SniffCtl            // SNIFF_CTRL
    | Pc                  // the fetch channel's READ_ADDR
    | Window              // the fetch channel's WRITE_ADDR (non-trigger alias)
    | Count(bank: int)    // a bank channel's TRANS_COUNT

  datatype Mode = Mode(size: int, incrR: bool, incrW: bool, bswap: bool, sniff: bool) {
    predicate Ok() {
      size == 1 || size == 2 || size == 4
    }
  }

  /** Memory holds words by word index: every bus access is aligned to its size, so each
      touches one field of exactly one word. */
  datatype State = State(mem: map<int, Word>, acc: Word, sctl: Word, pc: Word, win: Word, cnt: map<int, Word>)

  const OUT_REV: int := 0x400

  function Peek(mem: map<int, Word>, i: int): Word {
    if i in mem then mem[i] else 0
  }

  /** SNIFF_DATA as a bus read sees it: OUT_REV reverses the bits on the way out only. */
  function AccRead(s: State): Word {
    if s.sctl / OUT_REV % 2 == 1 then Rev32(s.acc) else s.acc
  }

  predicate Aligned(l: Loc, size: int) {
    l.Mem? ==> Fits(l.addr % 4, size)
  }

  function Read(s: State, l: Loc, size: int): Word
    requires Aligned(l, size)
  {
    match l
    case Mem(a) => Field(Peek(s.mem, a / 4), a % 4, size)
    case Acc | AccXor | AccSet | AccClr => AccRead(s)
    case SniffCtl => s.sctl
    case Pc => s.pc
    case Window => s.win
    case Count(_) => 0   // TRANS_COUNT reads back the live counter: zero on an idle channel
  }

  /** Register writes are register-wide whatever the transfer size. */
  function Write(s: State, l: Loc, v: Word, size: int): State
    requires Aligned(l, size)
  {
    match l
    case Mem(a) => s.(mem := s.mem[a / 4 := PutField(Peek(s.mem, a / 4), a % 4, size, v)])
    case Acc => s.(acc := v)
    case AccXor => s.(acc := XorW(AccRead(s), v))
    case AccSet => s.(acc := OrW(AccRead(s), v))
    case AccClr => s.(acc := AndNotW(AccRead(s), v))
    case SniffCtl => s.(sctl := v)
    case Pc => s.(pc := v)
    case Window => s.(win := v)
    case Count(b) => s.(cnt := s.cnt[b := v])
  }

  /** One transfer: read, swap, write, and then let the sniffer see the datum. */
  function Move(s: State, src: Loc, dst: Loc, m: Mode): State
    requires m.Ok() && Aligned(src, m.size) && Aligned(dst, m.size)
  {
    var d := Read(s, src, m.size);
    var d := if m.bswap then Bswap(d, m.size) else d;
    var s := Write(s, dst, d, m.size);
    if m.sniff then s.(acc := Add(s.acc, d)) else s
  }

  /** Where an incrementing pointer goes next; only memory is ever walked. */
  function Next(l: Loc, incr: bool, size: int): Loc {
    if incr && l.Mem? then Mem(l.addr + size) else l
  }

  /** A sequence of k transfers. */
  function Burst(s: State, src: Loc, dst: Loc, m: Mode, k: nat): State
    requires m.Ok() && Aligned(src, m.size) && Aligned(dst, m.size)
    decreases k
  {
    if k == 0 then s
    else Burst(Move(s, src, dst, m), Next(src, m.incrR, m.size), Next(dst, m.incrW, m.size), m, k - 1)
  }
}
