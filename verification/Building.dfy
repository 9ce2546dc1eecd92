/** The image builder (host/img/builder.go): whatever is emitted, and wherever its segments are
    placed, each pointer word ends up at its target's placed address and each literal unchanged. */
module Building {
  import opened Words
  import opened Images
  import opened Loading

  /** What a word was emitted as: a literal, an address in a segment, or a word relocated more than
      once, by its link-time value and the segments its relocations name. */
  datatype Cell = Lit(v: Word) | Ref(seg: int, off: Word) | Mixed(w: Word, refs: seq<int>)

  function CellRefs(c: Cell): seq<int> {
    match c
    case Lit(_) => []
    case Ref(s, _) => [s]
    case Mixed(_, refs) => refs
  }

  /** The cell names segments that exist. */
  predicate Named(n: int, c: Cell) {
    match c
    case Lit(_) => true
    case Ref(s, _) => 0 <= s < n
    case Mixed(_, refs) => forall i :: 0 <= i < |refs| ==> 0 <= refs[i] < n
  }

  /** The word in the file: a pointer is its target's link-time address. */
  function LinkWord(segs: seq<Segment>, c: Cell): Word
    requires Named(|segs|, c)
  {
    match c
    case Lit(v) => v
    case Ref(s, off) => Add(segs[s].link, off)
    case Mixed(w, _) => w
  }

  /** The sum of the segments' moves. */
  function Moves(refs: seq<int>, deltas: seq<Word>): Word
    requires forall i :: 0 <= i < |refs| ==> 0 <= refs[i] < |deltas|
  {
    if refs == [] then 0 else Add(Moves(refs[..|refs| - 1], deltas), deltas[refs[|refs| - 1]])
  }

  /** The word in memory: a pointer is its target's placed address. */
  ghost function PlacedWord(im: Image, pl: Placement, c: Cell): Word
    requires Named(|im.segs|, c)
  {
    match c
    case Lit(v) => v
    case Ref(s, off) => Add(PlaceOf(im, pl, s), off)
    case Mixed(w, refs) => Add(w, Moves(refs, Deltas(im, pl)))
  }

  /** The segments the first n relocations name for the word at s:off. */
  function RefsAt(relocs: seq<Reloc>, n: nat, s: int, off: int): seq<Word>
    requires n <= |relocs|
  {
    if n == 0 then []
    else RefsAt(relocs, n - 1, s, off) + if Names(relocs[n - 1], s, off) then [relocs[n - 1].ref] else []
  }

  ghost predicate CellAt(im: Image, cells: seq<seq<Cell>>, s: int, k: int)
    requires 0 <= s < |im.segs| && |cells| == |im.segs| && 0 <= k < |cells[s]| && |im.segs[s].data| == 4 * |cells[s]|
  {
    var c := cells[s][k];
    && Named(|im.segs|, c)
    && U32(im.segs[s].data, 4 * k) == LinkWord(im.segs, c)
    && RefsAt(im.relocs, |im.relocs|, s, 4 * k) == CellRefs(c)
  }

  ghost predicate CellsOk(im: Image, cells: seq<seq<Cell>>) {
    && |cells| == |im.segs| && (forall s :: 0 <= s < |cells| ==> |im.segs[s].data| == 4 * |cells[s]|)
    && (forall s, k :: 0 <= s < |cells| && 0 <= k < |cells[s]| ==> CellAt(im, cells, s, k))
  }

  ghost predicate RelocsInside(im: Image, cells: seq<seq<Cell>>)
    requires |cells| == |im.segs|
  {
    forall i :: 0 <= i < |im.relocs| ==>
                  && im.relocs[i].seg < |cells| && im.relocs[i].ref < |cells|
                  && im.relocs[i].off % 4 == 0 && im.relocs[i].off + 4 <= 4 * |cells[im.relocs[i].seg]|
  }

  ghost predicate WritesOk(im: Image, ws: seq<(Word, Cell)>) {
    |ws| == |im.writes| && forall i :: 0 <= i < |ws| ==> WriteAt(im, ws, i)
  }

  ghost predicate WriteAt(im: Image, ws: seq<(Word, Cell)>, i: int)
    requires 0 <= i < |ws| == |im.writes|
  {
    var c := ws[i].1;
    && !c.Mixed? && Named(|im.segs|, c) && (c.Ref? ==> c.seg < REFABS)
    && im.writes[i] == Write(ws[i].0, LinkWord(im.segs, c), if c.Ref? then c.seg else REFABS)
  }

  /** The image says what was emitted. */
  ghost predicate Describes(im: Image, cells: seq<seq<Cell>>, ws: seq<(Word, Cell)>) {
    CellsOk(im, cells) && RelocsInside(im, cells) && WritesOk(im, ws)
  }

  // ----- placement -----

  /** Relocations add up the moves of the segments they name. */
  lemma {:induction false} RebaseMoves(relocs: seq<Reloc>, n: nat, s: int, off: int, deltas: seq<Word>)
    requires n <= |relocs| && forall i :: 0 <= i < |relocs| ==> relocs[i].ref < |deltas|
    ensures var r := RefsAt(relocs, n, s, off);
            (forall i :: 0 <= i < |r| ==> 0 <= r[i] < |deltas|) && Rebase(relocs, n, s, off, deltas) == Moves(r, deltas)
    decreases n
  {
    if n > 0 {
      RebaseMoves(relocs, n - 1, s, off, deltas);
      var r, before := RefsAt(relocs, n, s, off), RefsAt(relocs, n - 1, s, off);
      if Names(relocs[n - 1], s, off) {
        assert r[..|r| - 1] == before && r[|r| - 1] == relocs[n - 1].ref;
      } else {
        assert r == before;
      }
    }
  }

  /** One word, wherever everything is placed. */
  lemma {:induction false} CellPlaced(im: Image, cells: seq<seq<Cell>>, pl: Placement, s: int, k: int)
    requires CellsOk(im, cells) && RelocsOk(im, Deltas(im, pl)) && 0 <= s < |cells| && 0 <= k < |cells[s]|
    ensures CellAt(im, cells, s, k) && PlacedAs(im, pl, s, 4 * k) == PlacedWord(im, pl, cells[s][k])
  {
    assert CellAt(im, cells, s, k);
    RebaseMoves(im.relocs, |im.relocs|, s, 4 * k, Deltas(im, pl));
    match cells[s][k]
    case Lit(v) =>
    case Ref(r, off) =>
      assert [r][..0] == [];
      DeltaRebases(im, pl, r, off);
    case Mixed(w, refs) =>
  }

  /** An init write's value, wherever everything is placed. */
  lemma {:induction false} WritePlaced(im: Image, ws: seq<(Word, Cell)>, pl: Placement, i: int)
    requires WritesOk(im, ws) && 0 <= i < |ws|
    ensures WriteAt(im, ws, i) && RefsOk(im.writes, Deltas(im, pl)) && im.writes[i].addr == ws[i].0
    ensures WrittenAs(im, pl, i) == PlacedWord(im, pl, ws[i].1)
  {
    WritesRefs(im, ws, pl);
    assert WriteAt(im, ws, i);
    if ws[i].1.Ref? {
      DeltaRebases(im, pl, ws[i].1.seg, ws[i].1.off);
    }
  }

  lemma {:induction false} WritesRefs(im: Image, ws: seq<(Word, Cell)>, pl: Placement)
    requires WritesOk(im, ws)
    ensures RefsOk(im.writes, Deltas(im, pl))
  {
    forall i | 0 <= i < |im.writes| ensures im.writes[i].ref == REFABS || im.writes[i].ref < |im.segs| {
      assert WriteAt(im, ws, i);
    }
  }

  /** What the word at s:k was last given: its cell, or that of the last init write to it. */
  ghost function LastCell(im: Image, cells: seq<seq<Cell>>, ws: seq<(Word, Cell)>, pl: Placement, s: int,
                          k: int): (c: Cell)
    requires Describes(im, cells, ws) && 0 <= s < |cells| && 0 <= k < |cells[s]|
    ensures Named(|im.segs|, c)
  {
    assert CellAt(im, cells, s, k);
    var i := LastTo(im, PlaceOf(im, pl, s) + 4 * k);
    if i >= 0 then assert WriteAt(im, ws, i); ws[i].1 else cells[s][k]
  }

  /** The init writes that reach devices, with their placed values. */
  ghost function DeviceWrites(im: Image, pl: Placement, t: Target, ws: seq<(Word, Cell)>, n: nat): seq<(Word, Word)>
    requires WritesOk(im, ws) && n <= |ws|
  {
    if n == 0 then []
    else
      assert WriteAt(im, ws, n - 1);
      DeviceWrites(im, pl, t, ws, n - 1)
      + if InRam(t, ws[n - 1].0, 4) then [] else [(ws[n - 1].0, PlacedWord(im, pl, ws[n - 1].1))]
  }

  /** Building, encoding, decoding and loading: for every placement the target can take, each word
      holds what it was last given, a pointer its target's placed address plus offset and a literal
      its value; init writes reach RAM and devices rebased, and the entry is its placed address. */
  lemma {:induction false} PlacementIndependent(im: Image, cells: seq<seq<Cell>>, ws: seq<(Word, Cell)>, pl: Placement,
                                                t: Target, t': Target, entry: Word)
    requires Describes(im, cells, ws) && Validates(im) && Images.Fits(im)
    requires RelocsOk(im, Deltas(im, pl)) && RefsOk(im.writes, Deltas(im, pl)) && LoadedAs(im, pl, t, t', entry)
    ensures Decoded(Encoded(im)) == Ok(im)
    ensures forall s, k :: 0 <= s < |cells| && 0 <= k < |cells[s]| ==>
                             MemWord(t'.mem, PlaceOf(im, pl, s) + 4 * k)
                                 == PlacedWord(im, pl, LastCell(im, cells, ws, pl, s, k))
    ensures forall i :: 0 <= i < |ws| && InRam(t, ws[i].0, 4) && LastTo(im, ws[i].0) == i ==>
                          WriteAt(im, ws, i) && MemWord(t'.mem, ws[i].0) == PlacedWord(im, pl, ws[i].1)
    ensures t'.bus == t.bus + DeviceWrites(im, pl, t, ws, |ws|)
    ensures entry == Add(PlaceOf(im, pl, im.entrySeg), im.entryOff)
  {
    assert |ws| == |im.writes|;
    hide Decoded, Encoded, Validates, RelocsOk, RefsOk, MemWord, Deltas, PlacedWord, FinalAs, WrittenAs, BusWrites,
        CellsOk, WritesOk, LastTo;
    EncodeDecode(im);
    forall s, k | 0 <= s < |cells| && 0 <= k < |cells[s]|
      ensures MemWord(t'.mem, PlaceOf(im, pl, s) + 4 * k) == PlacedWord(im, pl, LastCell(im, cells, ws, pl, s, k))
    {
      LastPlaced(im, cells, ws, pl, t'.mem, s, k);
    }
    forall i | 0 <= i < |ws| && InRam(t, ws[i].0, 4) && LastTo(im, ws[i].0) == i
      ensures WriteAt(im, ws, i) && MemWord(t'.mem, ws[i].0) == PlacedWord(im, pl, ws[i].1)
    {
      WritePlaced(im, ws, pl, i);
    }
    DevicesPlaced(im, pl, t, ws, |ws|);
  }

  lemma {:induction false} LastPlaced(im: Image, cells: seq<seq<Cell>>, ws: seq<(Word, Cell)>, pl: Placement,
                                      mem: map<int, Byte>, s: int, k: int)
    requires Describes(im, cells, ws) && RelocsOk(im, Deltas(im, pl)) && RefsOk(im.writes, Deltas(im, pl))
    requires SegmentsAs(im, pl, mem)
    requires 0 <= s < |cells| && 0 <= k < |cells[s]|
    ensures MemWord(mem, PlaceOf(im, pl, s) + 4 * k) == PlacedWord(im, pl, LastCell(im, cells, ws, pl, s, k))
  {
    hide RelocsOk, RefsOk, MemWord, Deltas, PlacedWord, PlacedAs, WrittenAs, LastTo, U32;
    assert IsWord(im, s, 4 * k);
    CellPlaced(im, cells, pl, s, k);
    var i := LastTo(im, PlaceOf(im, pl, s) + 4 * k);
    if i >= 0 { WritePlaced(im, ws, pl, i); }
  }

  lemma {:induction false} DevicesPlaced(im: Image, pl: Placement, t: Target, ws: seq<(Word, Cell)>, n: nat)
    requires WritesOk(im, ws) && RefsOk(im.writes, Deltas(im, pl)) && n <= |ws|
    ensures BusWrites(t, im.writes, n, Deltas(im, pl)) == DeviceWrites(im, pl, t, ws, n)
    decreases n
  {
    if n > 0 {
      DevicesPlaced(im, pl, t, ws, n - 1);
      WritePlaced(im, ws, pl, n - 1);
    }
  }

  // ----- emitting -----

  function WithData(im: Image, s: int, data: seq<Byte>): Image
    requires 0 <= s < |im.segs|
  {
    im.(segs := im.segs[s := im.segs[s].(data := data)])
  }

  lemma {:induction false} NoRefsPast(relocs: seq<Reloc>, n: nat, s: int, off: int)
    requires n <= |relocs| && forall i :: 0 <= i < |relocs| && relocs[i].seg == s ==> relocs[i].off != off
    ensures RefsAt(relocs, n, s, off) == []
    decreases n
  {
    if n > 0 { NoRefsPast(relocs, n - 1, s, off); }
  }

  lemma {:induction false} RefsStay(relocs: seq<Reloc>, r: Reloc, n: nat, s: int, off: int)
    requires n <= |relocs|
    ensures RefsAt(relocs + [r], n, s, off) == RefsAt(relocs, n, s, off)
    decreases n
  {
    if n > 0 { RefsStay(relocs, r, n - 1, s, off); }
  }

  lemma PrefixWord(a: seq<Byte>, b: seq<Byte>, i: int)
    requires 0 <= i && i + 4 <= |a|
    ensures U32(a + b, i) == U32(a, i)
  {
  }

  lemma SuffixWord(a: seq<Byte>, w: Word)
    ensures U32(a + LE(w), |a|) == w
  {
    LEU32(w);
    var s := a + LE(w);
    assert s[|a|] == LE(w)[0] && s[|a| + 1] == LE(w)[1] && s[|a| + 2] == LE(w)[2] && s[|a| + 3] == LE(w)[3];
  }

  /** Appending a literal. */
  lemma {:induction false} WordDescribes(im: Image, cells: seq<seq<Cell>>, ws: seq<(Word, Cell)>, s: int, v: Word)
    requires Describes(im, cells, ws) && 0 <= s < |im.segs|
    ensures Describes(WithData(im, s, im.segs[s].data + LE(v)), cells[s := cells[s] + [Lit(v)]], ws)
  {
    var im', cells' := WithData(im, s, im.segs[s].data + LE(v)), cells[s := cells[s] + [Lit(v)]];
    forall i, k | 0 <= i < |cells'| && 0 <= k < |cells'[i]| ensures CellAt(im', cells', i, k) {
      if i == s && k == |cells[s]| {
        SuffixWord(im.segs[s].data, v);
        NoRefsPast(im.relocs, |im.relocs|, s, 4 * k);
      } else {
        assert CellAt(im, cells, i, k) && cells'[i][k] == cells[i][k];
        if i == s { PrefixWord(im.segs[s].data, LE(v), 4 * k); }
      }
    }
    forall i | 0 <= i < |ws| ensures WriteAt(im', ws, i) { assert WriteAt(im, ws, i); }
  }

  /** A cell with one more relocation. */
  function Relocated(segs: seq<Segment>, c: Cell, ref: int): Cell
    requires Named(|segs|, c) && 0 <= ref < |segs|
  {
    match c
    case Lit(v) => Ref(ref, Sub(v, segs[ref].link))
    case Ref(s, _) => Mixed(LinkWord(segs, c), [s, ref])
    case Mixed(w, refs) => Mixed(w, refs + [ref])
  }

  lemma {:induction false} RelocatedRefs(segs: seq<Segment>, c: Cell, ref: int)
    requires Named(|segs|, c) && 0 <= ref < |segs|
    ensures var c' := Relocated(segs, c, ref);
            CellRefs(c') == CellRefs(c) + [ref] && Named(|segs|, c') && LinkWord(segs, c') == LinkWord(segs, c)
  {
    var c' := Relocated(segs, c, ref);
    assert CellRefs(c') == CellRefs(c) + [ref];
  }

  /** Marking a word as an address into ref. */
  lemma {:induction false} RelocDescribes(im: Image, cells: seq<seq<Cell>>, ws: seq<(Word, Cell)>, s: int, k: int,
                                          ref: int)
    requires Describes(im, cells, ws) && 0 <= s < |im.segs| && 0 <= ref < |im.segs| < M32 && 0 <= k < |cells[s]|
    requires 4 * k < M32
    ensures CellAt(im, cells, s, k)
    ensures Describes(im.(relocs := im.relocs + [Reloc(s, 4 * k, ref)]),
              cells[s := cells[s][k := Relocated(im.segs, cells[s][k], ref)]], ws)
  {
    assert CellAt(im, cells, s, k);
    hide LinkWord, Relocated, Named;
    var r := Reloc(s, 4 * k, ref);
    var im' := im.(relocs := im.relocs + [r]);
    RelocatedRefs(im.segs, cells[s][k], ref);
    var cells' := cells[s := cells[s][k := Relocated(im.segs, cells[s][k], ref)]];
    var n := |im.relocs|;
    forall i, j | 0 <= i < |cells'| && 0 <= j < |cells'[i]| ensures CellAt(im', cells', i, j) {
      assert CellAt(im, cells, i, j);
      RefsStay(im.relocs, r, n, i, 4 * j);
      assert RefsAt(im'.relocs, n + 1, i, 4 * j) == RefsAt(im'.relocs, n, i, 4 * j) +
          if Names(r, i, 4 * j) then [r.ref] else [];
    }
    forall i | 0 <= i < |im'.relocs|
      ensures && im'.relocs[i].seg < |cells'| && im'.relocs[i].ref < |cells'|
              && im'.relocs[i].off % 4 == 0 && im'.relocs[i].off + 4 <= 4 * |cells'[im'.relocs[i].seg]|
    {
      if i < n { assert im'.relocs[i] == im.relocs[i]; }
    }
    forall i | 0 <= i < |ws| ensures WriteAt(im', ws, i) { assert WriteAt(im, ws, i); }
  }

  /** A cell given a new word. */
  function Renewed(im: Image, c: Cell, v: Word): Cell
    requires Named(|im.segs|, c)
  {
    match c
    case Lit(_) => Lit(v)
    case Ref(r, _) => Ref(r, Sub(v, im.segs[r].link))
    case Mixed(_, refs) => Mixed(v, refs)
  }

  lemma {:induction false} SetDescribes(im: Image, cells: seq<seq<Cell>>, ws: seq<(Word, Cell)>, s: int, k: int,
                                        v: Word)
    requires Describes(im, cells, ws) && 0 <= s < |im.segs| && 0 <= k < |cells[s]|
    ensures CellAt(im, cells, s, k)
    ensures Describes(WithData(im, s, Patch(im.segs[s].data, 4 * k, v)),
              cells[s := cells[s][k := Renewed(im, cells[s][k], v)]], ws)
  {
    assert CellAt(im, cells, s, k);
    var im', cells' := WithData(im, s, Patch(im.segs[s].data, 4 * k, v)),
        cells[s := cells[s][k := Renewed(im, cells[s][k], v)]];
    hide CellAt, WriteAt, Patch, Renewed;
    forall i, j | 0 <= i < |cells'| && 0 <= j < |cells'[i]| ensures CellAt(im', cells', i, j) {
      assert CellAt(im, cells, i, j);
      SetCell(im, cells, s, k, v, i, j);
    }
    forall i | 0 <= i < |ws| ensures WriteAt(im', ws, i) {
      assert WriteAt(im, ws, i);
      SetWrite(im, ws, s, Patch(im.segs[s].data, 4 * k, v), i);
    }
  }

  lemma {:induction false} SetCell(im: Image, cells: seq<seq<Cell>>, s: int, k: int, v: Word, i: int, j: int)
    requires |cells| == |im.segs| && forall x :: 0 <= x < |cells| ==> |im.segs[x].data| == 4 * |cells[x]|
    requires 0 <= s < |im.segs| && 0 <= k < |cells[s]| && CellAt(im, cells, s, k)
    requires 0 <= i < |cells| && 0 <= j < |cells[i]| && CellAt(im, cells, i, j)
    ensures CellAt(WithData(im, s, Patch(im.segs[s].data, 4 * k, v)),
              cells[s := cells[s][k := Renewed(im, cells[s][k], v)]], i, j)
  {
    hide RefsAt, U32;
    if i == s { PatchAt(im.segs[s].data, 4 * k, v, 4 * j); }
  }

  lemma {:induction false} SetWrite(im: Image, ws: seq<(Word, Cell)>, s: int, data: seq<Byte>, i: int)
    requires 0 <= s < |im.segs| && |data| == |im.segs[s].data| && 0 <= i < |ws| == |im.writes| && WriteAt(im, ws, i)
    ensures WriteAt(WithData(im, s, data), ws, i)
  {
  }

  /** An operand: absolute, or an offset in a segment. */
  datatype Operand = Abs(addr: Word) | In(seg: int, off: Word)

  function OperandCell(p: Operand): Cell {
    match p
    case Abs(a) => Lit(a)
    case In(s, off) => Ref(s, off)
  }

  class Builder {
    var img: Image
    ghost var cells: seq<seq<Cell>>
    ghost var ws: seq<(Word, Cell)>

    ghost predicate Valid()
      reads this
    {
      Describes(img, cells, ws) && |img.segs| < REFABS
    }

    /** Room for n more words in a segment below 4 GiB. */
    predicate Room(s: int, n: nat)
      reads this
    {
      0 <= s < |img.segs| && |img.segs[s].data| + 4 * n < M32
    }

    constructor ()
      ensures Valid() && img == Image([], [], [], 0, 0) && cells == [] && ws == []
    {
      img, cells, ws := Image([], [], [], 0, 0), [], [];
    }

    method Seg(link: Words.Word) returns (s: int)
      requires Valid() && |img.segs| + 1 < REFABS
      modifies this
      ensures Valid() && s == old(|img.segs|) && cells == old(cells) + [[]] && ws == old(ws)
      ensures img == old(img).(segs := old(img).segs + [Segment(link, [])])
    {
      s := |img.segs|;
      ghost var im, cs := img, cells;
      img := img.(segs := img.segs + [Segment(link, [])]);
      cells := cells + [[]];
      SegDescribes(im, cs, ws, link);
    }

    /** Appends a literal word and returns its offset. */
    method Word(s: int, v: Words.Word) returns (off: int)
      requires Valid() && Room(s, 1)
      modifies this
      ensures Valid() && off == 4 * old(|cells[s]|) && cells == old(cells)[s := old(cells[s]) + [Lit(v)]]
      ensures ws == old(ws)
      ensures img == WithData(old(img), s, old(img).segs[s].data + LE(v))
    {
      off := |img.segs[s].data|;
      WordDescribes(img, cells, ws, s, v);
      img := WithData(img, s, img.segs[s].data + LE(v));
      cells := cells[s := cells[s] + [Lit(v)]];
    }

    /** Marks the word at off as an address into ref. */
    method RelocAt(s: int, off: int, ref: int)
      requires Valid() && 0 <= s < |img.segs| && 0 <= ref < |img.segs|
      requires 0 <= off < M32 && off % 4 == 0 && off / 4 < |cells[s]|
      modifies this
      ensures Valid() && ws == old(ws) && Named(|old(img).segs|, old(cells[s])[off / 4])
      ensures cells == old(cells)[s := old(cells[s])[off / 4 := Relocated(old(img).segs, old(cells[s])[off / 4], ref)]]
      ensures img == old(img).(relocs := old(img).relocs + [Reloc(s, off, ref)])
    {
      RelocDescribes(img, cells, ws, s, off / 4, ref);
      cells := cells[s := cells[s][off / 4 := Relocated(img.segs, cells[s][off / 4], ref)]];
      img := img.(relocs := img.relocs + [Reloc(s, off, ref)]);
    }

    /** Appends the address of ref:refOff, relocated. */
    method WordRef(s: int, ref: int, refOff: Words.Word) returns (off: int)
      requires Valid() && Room(s, 1) && 0 <= ref < |img.segs|
      modifies this
      ensures Valid() && off == 4 * old(|cells[s]|) && cells == old(cells)[s := old(cells[s]) + [Ref(ref, refOff)]]
      ensures ws == old(ws)
      ensures |img.segs| == old(|img.segs|)
      ensures forall i :: 0 <= i < |img.segs| ==>
                            img.segs[i].link == old(img).segs[i].link && (i != s ==> img.segs[i] == old(img).segs[i])
      ensures |img.segs[s].data| == old(|img.segs[s].data|) + 4 && img.writes == old(img).writes
      ensures img.entrySeg == old(img).entrySeg && img.entryOff == old(img).entryOff
    {
      off := Word(s, Add(img.segs[ref].link, refOff));
      RelocAt(s, off, ref);
      assert cells[s] == old(cells[s]) + [Ref(ref, refOff)];
      assert cells == old(cells)[s := cells[s]];
    }

    /** Patches a word emitted earlier. */
    method SetWord(s: int, off: int, v: Words.Word)
      requires Valid() && 0 <= s < |img.segs| && 0 <= off && off % 4 == 0 && off / 4 < |cells[s]|
      modifies this
      ensures Valid() && ws == old(ws) && Named(|old(img).segs|, old(cells[s])[off / 4])
      ensures cells == old(cells)[s := old(cells[s])[off / 4 := Renewed(old(img), old(cells[s])[off / 4], v)]]
      ensures img == WithData(old(img), s, Patch(old(img).segs[s].data, off, v))
    {
      SetDescribes(img, cells, ws, s, off / 4, v);
      ghost var c := Renewed(img, cells[s][off / 4], v);
      img := WithData(img, s, Patch(img.segs[s].data, off, v));
      cells := cells[s := cells[s][off / 4 := c]];
    }

    /** Appends an operand, relocated when it names a segment. */
    method Pointer(s: int, p: Operand)
      requires Valid() && Room(s, 1) && (p.In? ==> 0 <= p.seg < |img.segs|)
      modifies this
      ensures Valid() && cells == old(cells)[s := old(cells[s]) + [OperandCell(p)]] && ws == old(ws)
      ensures |img.segs| == old(|img.segs|)
      ensures |img.segs[s].data| == old(|img.segs[s].data|) + 4
    {
      match p
      case Abs(a) => var _ := Word(s, a);
      case In(r, off) => var _ := WordRef(s, r, off);
    }

    /** Appends a control block. */
    method BlockP(s: int, read: Operand, write: Operand, count: Words.Word, ctrl: Words.Word) returns (off: int)
      requires Valid() && Room(s, 4) && (read.In? ==> 0 <= read.seg < |img.segs|)
      requires write.In? ==> 0 <= write.seg < |img.segs|
      modifies this
      ensures Valid() && off == 4 * old(|cells[s]|) && ws == old(ws)
      ensures cells == old(cells)[s := old(cells[s]) + [OperandCell(read), OperandCell(write), Lit(count), Lit(ctrl)]]
    {
      off := |img.segs[s].data|;
      Pointer(s, read);
      Pointer(s, write);
      var _ := Word(s, count);
      var _ := Word(s, ctrl);
      assert cells[s] == old(cells[s]) + [OperandCell(read), OperandCell(write), Lit(count), Lit(ctrl)];
      assert cells == old(cells)[s := cells[s]];
    }

    /** Appends a compact record. */
    method RecordP(s: int, read: Operand, write: Operand) returns (off: int)
      requires Valid() && Room(s, 2) && (read.In? ==> 0 <= read.seg < |img.segs|)
      requires write.In? ==> 0 <= write.seg < |img.segs|
      modifies this
      ensures Valid() && off == 4 * old(|cells[s]|) && ws == old(ws)
      ensures cells == old(cells)[s := old(cells[s]) + [OperandCell(read), OperandCell(write)]]
    {
      off := |img.segs[s].data|;
      Pointer(s, read);
      Pointer(s, write);
      assert cells[s] == old(cells[s]) + [OperandCell(read), OperandCell(write)];
      assert cells == old(cells)[s := cells[s]];
    }

    /** An init write, absolute or of an address inside a segment. */
    method AddWrite(addr: Words.Word, value: Words.Word)
      requires Valid()
      modifies this
      ensures Valid() && cells == old(cells) && ws == old(ws) + [(addr, Lit(value))]
    {
      WriteDescribes(img, cells, ws, addr, Lit(value));
      img := img.(writes := img.writes + [Write(addr, value, REFABS)]);
      ws := ws + [(addr, Lit(value))];
    }

    method AddWriteRef(addr: Words.Word, ref: int, off: Words.Word)
      requires Valid() && 0 <= ref < |img.segs|
      modifies this
      ensures Valid() && cells == old(cells) && ws == old(ws) + [(addr, Ref(ref, off))]
    {
      WriteDescribes(img, cells, ws, addr, Ref(ref, off));
      img := img.(writes := img.writes + [Write(addr, Add(img.segs[ref].link, off), ref)]);
      ws := ws + [(addr, Ref(ref, off))];
    }

    method Entry(s: int, off: Words.Word)
      requires Valid() && 0 <= s < |img.segs|
      modifies this
      ensures Valid() && cells == old(cells) && ws == old(ws) && img == old(img).(entrySeg := s, entryOff := off)
    {
      EntryDescribes(img, cells, ws, s, off);
      img := img.(entrySeg := s, entryOff := off);
    }
  }

  lemma {:induction false} SegDescribes(im: Image, cells: seq<seq<Cell>>, ws: seq<(Word, Cell)>, link: Word)
    requires Describes(im, cells, ws)
    ensures Describes(im.(segs := im.segs + [Segment(link, [])]), cells + [[]], ws)
  {
    var im', cells' := im.(segs := im.segs + [Segment(link, [])]), cells + [[]];
    forall i, k | 0 <= i < |cells'| && 0 <= k < |cells'[i]| ensures CellAt(im', cells', i, k) {
      assert i < |cells| && CellAt(im, cells, i, k);
    }
    forall i | 0 <= i < |ws| ensures WriteAt(im', ws, i) { assert WriteAt(im, ws, i); }
  }

  lemma {:induction false} WriteDescribes(im: Image, cells: seq<seq<Cell>>, ws: seq<(Word, Cell)>, addr: Word, c: Cell)
    requires Describes(im, cells, ws) && |im.segs| < REFABS && !c.Mixed? && Named(|im.segs|, c)
    ensures Describes(im.(writes := im.writes + [Write(addr, LinkWord(im.segs, c), if c.Ref? then c.seg else REFABS)]),
              cells, ws + [(addr, c)])
  {
    var im' := im.(writes := im.writes + [Write(addr, LinkWord(im.segs, c), if c.Ref? then c.seg else REFABS)]);
    var ws' := ws + [(addr, c)];
    forall i, k | 0 <= i < |cells| && 0 <= k < |cells[i]|
      ensures CellAt(im', cells, i, k)
    {
      assert CellAt(im, cells, i, k);
    }
    forall i | 0 <= i < |ws'| ensures WriteAt(im', ws', i) { if i < |ws| { assert WriteAt(im, ws, i); } }
  }

  lemma {:induction false} EntryDescribes(im: Image, cells: seq<seq<Cell>>, ws: seq<(Word, Cell)>, s: Word, off: Word)
    requires Describes(im, cells, ws)
    ensures Describes(im.(entrySeg := s, entryOff := off), cells, ws)
  {
    var im' := im.(entrySeg := s, entryOff := off);
    forall i, k | 0 <= i < |cells| && 0 <= k < |cells[i]|
      ensures CellAt(im', cells, i, k)
    {
      assert CellAt(im, cells, i, k);
    }
    forall i | 0 <= i < |ws| ensures WriteAt(im', ws, i) { assert WriteAt(im, ws, i); }
  }

  // ----- relocating a word twice -----

  /** How often a segment is named. */
  function Count(refs: seq<int>, x: int): nat {
    if refs == [] then 0 else Count(refs[..|refs| - 1], x) + if refs[|refs| - 1] == x then 1 else 0
  }

  lemma {:induction false} CountBounds(refs: seq<int>, x: int)
    ensures Count(refs, x) <= |refs| && (x in refs ==> Count(refs, x) > 0)
    decreases |refs|
  {
    if refs != [] {
      CountBounds(refs[..|refs| - 1], x);
      assert x in refs ==> x in refs[..|refs| - 1] || x == refs[|refs| - 1];
    }
  }

  /** Move segment x up by one word and leave the rest. */
  function Nudge(im: Image, x: int): Placement
    requires 0 <= x < |im.segs|
  {
    map[x := Add(im.segs[x].link, 4)]
  }

  lemma {:induction false} NudgeMoves(im: Image, x: int, refs: seq<int>)
    requires 0 <= x < |im.segs| && (forall i :: 0 <= i < |refs| ==> 0 <= refs[i] < |im.segs|) && |refs| < 0x4000_0000
    ensures Moves(refs, Deltas(im, Nudge(im, x))) == 4 * Count(refs, x)
    decreases |refs|
  {
    CountBounds(refs, x);
    if refs != [] {
      var r := refs[..|refs| - 1];
      NudgeMoves(im, x, r);
      CountBounds(r, x);
      assert DeltaOf(im, Nudge(im, x), refs[|refs| - 1]) == if refs[|refs| - 1] == x then 4 else 0;
    }
  }

  ghost predicate AlignedPlaces(im: Image, pl: Placement) {
    forall s :: 0 <= s < |im.segs| ==> PlaceOf(im, pl, s) % 4 == 0
  }

  /** Under every aligned placement, the cell is the address of ref that its word is at link time. */
  ghost predicate AlwaysIn(im: Image, c: Cell, ref: int)
    requires Named(|im.segs|, c) && 0 <= ref < |im.segs|
  {
    forall pl: Placement :: AlignedPlaces(im, pl) ==>
      PlacedWord(im, pl, c) == Add(PlaceOf(im, pl, ref), Sub(LinkWord(im.segs, c), im.segs[ref].link))
  }

  lemma {:induction false} NudgeLast(im: Image, x: int, refs: seq<int>, ref: int)
    requires 0 <= x < |im.segs| && (forall i :: 0 <= i < |refs| ==> 0 <= refs[i] < |im.segs|) && |refs| < 0x3FFF_FFFF
    requires 0 <= ref < |im.segs|
    ensures Moves(refs + [ref], Deltas(im, Nudge(im, x))) == Wrap(4 * Count(refs, x) + if ref == x then 4 else 0)
  {
    hide Deltas, Moves, Nudge;
    var all := refs + [ref];
    assert all[..|all| - 1] == refs && all[|all| - 1] == ref;
    assert Count(all, x) == Count(refs, x) + if ref == x then 1 else 0;
    hide Count;
    NudgeMoves(im, x, all);
  }

  lemma {:induction false} TwiceMoves(im: Image, c: Cell, ref: int, x: int)
    requires Named(|im.segs|, c) && 0 <= ref < |im.segs| && |CellRefs(c)| < 0x3FFF_FFFF && 0 <= x < |im.segs|
    requires !c.Lit?
    ensures var c' := Relocated(im.segs, c, ref);
            && Named(|im.segs|, c') && c'.Mixed? && c'.w == LinkWord(im.segs, c')
            && Moves(c'.refs, Deltas(im, Nudge(im, x)))
               == Wrap(4 * Count(CellRefs(c), x) + if ref == x then 4 else 0)
  {
    hide Deltas, Moves, Nudge, Count, Wrap, Add;
    RelocatedRefs(im.segs, c, ref);
    NudgeLast(im, x, CellRefs(c), ref);
  }

  /** A second relocation is off wherever the first one's segment moves by a word. */
  lemma {:induction false} RelocatedTwice(im: Image, c: Cell, ref: int, x: int)
    requires Named(|im.segs|, c) && 0 <= ref < |im.segs| && |CellRefs(c)| < 0x3FFF_FFFF && 0 <= x < |im.segs|
    requires !c.Lit? && x in CellRefs(c)
    ensures var c', pl := Relocated(im.segs, c, ref), Nudge(im, x);
            && Named(|im.segs|, c')
            && PlacedWord(im, pl, c') != Add(PlaceOf(im, pl, ref), Sub(LinkWord(im.segs, c'), im.segs[ref].link))
  {
    hide LinkWord, Deltas, Moves, Count, Relocated, Wrap, Add, Sub;
    TwiceMoves(im, c, ref, x);
    CountBounds(CellRefs(c), x);
    var d: Word := if ref == x then 4 else 0;
    NudgeApart(LinkWord(im.segs, Relocated(im.segs, c, ref)), im.segs[ref].link, Count(CellRefs(c), x), d);
    NudgePlaces(im, ref, x);
  }

  lemma NudgePlaces(im: Image, ref: int, x: int)
    requires 0 <= ref < |im.segs| && 0 <= x < |im.segs|
    ensures PlaceOf(im, Nudge(im, x), ref) == Add(im.segs[ref].link, if ref == x then 4 else 0)
  {
  }

  /** Relocating a word makes it the address it was at link time, wherever everything is placed,
      exactly when it was not relocated before. */
  lemma {:induction false} RelocatedOnce(im: Image, c: Cell, ref: int)
    requires Named(|im.segs|, c) && 0 <= ref < |im.segs| && |CellRefs(c)| < 0x3FFF_FFFF && (c.Mixed? ==> |c.refs| >= 2)
    requires forall s :: 0 <= s < |im.segs| ==> im.segs[s].link % 4 == 0
    ensures Named(|im.segs|, Relocated(im.segs, c, ref))
    ensures AlwaysIn(im, Relocated(im.segs, c, ref), ref) <==> c.Lit?
  {
    RelocatedRefs(im.segs, c, ref);
    if !c.Lit? {
      var x := CellRefs(c)[0];
      assert x in CellRefs(c) && 0 <= x < |im.segs|;
      hide Relocated, Moves, Deltas, Add, Sub;
      RelocatedTwice(im, c, ref, x);
      NudgeAligned(im, x);
    }
  }

  lemma NudgeAligned(im: Image, x: int)
    requires 0 <= x < |im.segs| && forall s :: 0 <= s < |im.segs| ==> im.segs[s].link % 4 == 0
    ensures AlignedPlaces(im, Nudge(im, x))
  {
  }

  lemma NudgeApart(w: Word, link: Word, n: nat, d: Word)
    requires 0 < n < 0x3FFF_FFFF && (d == 0 || d == 4)
    ensures Add(w, Wrap(4 * n + d)) != Add(Add(link, d), Sub(w, link))
  {
  }
}
