/** The DMX image format (host/img/img.go): encoding, decoding and validation, and when an image
    survives the round trip. */
module Images {
  import opened Words
  import Bits

  type Byte = x: int | 0 <= x < 256

  const MAGIC: Word := 0x31584D44
  const REFABS: Word := 0xFFFF_FFFF

  datatype Segment = Segment(link: Word, data: seq<Byte>)
  datatype Reloc = Reloc(seg: Word, off: Word, ref: Word)
  datatype Write = Write(addr: Word, value: Word, ref: Word)
  datatype Image = Image(segs: seq<Segment>, relocs: seq<Reloc>, writes: seq<Write>, entrySeg: Word, entryOff: Word)

  datatype Error = BadMagic | BadFlags | Implausible | Truncated | Trailing | Invalid
  datatype Result<T> = Ok(value: T) | Err(error: Error)

  // ----- little-endian words -----

  function LE(w: Word): (s: seq<Byte>)
    ensures |s| == 4
  {
    [w % 0x100, w / 0x100 % 0x100, w / 0x1_0000 % 0x100, w / 0x100_0000]
  }

  function FromBytes(a: int, b: int, c: int, d: int): int {
    a + 0x100 * b + 0x1_0000 * c + 0x100_0000 * d
  }

  function U32(s: seq<Byte>, i: int): Word
    requires 0 <= i && i + 4 <= |s|
  {
    FromBytes(s[i], s[i + 1], s[i + 2], s[i + 3])
  }

  lemma LEU32(w: Word)
    ensures U32(LE(w), 0) == w
  {
    var q1: int := w / 0x100;
    var q2: int := q1 / 0x100;
    var q3: int := q2 / 0x100;
    Bits.QuotientOf(w, 0x1_0000, q2, w % 0x100 + 0x100 * (q1 % 0x100));
    Bits.QuotientOf(w, 0x100_0000, q3, w % 0x100 + 0x100 * (q1 % 0x100) + 0x1_0000 * (q2 % 0x100));
  }

  lemma U32LE(s: seq<Byte>, i: int)
    requires 0 <= i && i + 4 <= |s|
    ensures LE(U32(s, i)) == s[i..i + 4]
  {
    Digits(s[i], s[i + 1], s[i + 2], s[i + 3]);
  }

  lemma Digits(a: int, b: int, c: int, d: int)
    requires 0 <= a < 256 && 0 <= b < 256 && 0 <= c < 256 && 0 <= d < 256
    ensures var w := FromBytes(a, b, c, d);
              w % 0x100 == a && w / 0x100 % 0x100 == b && w / 0x1_0000 % 0x100 == c && w / 0x100_0000 == d
  {
    var w := FromBytes(a, b, c, d);
    Bits.QuotientOf(w, 0x100, b + 0x100 * c + 0x1_0000 * d, a);
    Bits.QuotientOf(b + 0x100 * c + 0x1_0000 * d, 0x100, c + 0x100 * d, b);
    Bits.QuotientOf(w, 0x1_0000, c + 0x100 * d, a + 0x100 * b);
    Bits.QuotientOf(c + 0x100 * d, 0x100, d, c);
    Bits.QuotientOf(w, 0x100_0000, d, a + 0x100 * b + 0x1_0000 * c);
  }

  /** Words one after the other. */
  function Bytes(ws: seq<Word>): (s: seq<Byte>)
    ensures |s| == 4 * |ws|
  {
    if ws == [] then [] else Bytes(ws[..|ws| - 1]) + LE(ws[|ws| - 1])
  }

  lemma {:induction false} BytesJoin(a: seq<Word>, b: seq<Word>)
    ensures Bytes(a + b) == Bytes(a) + Bytes(b)
  {
    if b == [] {
      assert a + b == a;
    } else {
      var n := |b| - 1;
      assert (a + b)[..|a + b| - 1] == a + b[..n];
      BytesJoin(a, b[..n]);
    }
  }

  lemma {:induction false} BytesAt(ws: seq<Word>, rest: seq<Byte>, i: nat)
    requires i < |ws|
    ensures U32(Bytes(ws) + rest, 4 * i) == ws[i]
  {
    var n := |ws| - 1;
    if i == n {
      LEU32(ws[n]);
      var s := Bytes(ws) + rest;
      assert s[4 * n..4 * n + 4] == LE(ws[n]);
      assert s[4 * n] == LE(ws[n])[0] && s[4 * n + 1] == LE(ws[n])[1] && s[4 * n + 2] == LE(ws[n])[2]
          && s[4 * n + 3] == LE(ws[n])[3];
    } else {
      BytesAt(ws[..n], LE(ws[n]) + rest, i);
      assert Bytes(ws) + rest == Bytes(ws[..n]) + (LE(ws[n]) + rest);
    }
  }

  // ----- validation -----

  predicate SegOk(s: Segment) {
    |s.data| % 4 == 0 && s.link % 4 == 0
  }

  /** The offset test adds in 32 bits. */
  predicate RelocOk(segs: seq<Segment>, r: Reloc) {
    r.seg < |segs| && r.ref < |segs| && r.off % 4 == 0 && Wrap(r.off + 4) <= Wrap(|segs[r.seg].data|)
  }

  predicate WriteOk(segs: seq<Segment>, w: Write) {
    (w.ref == REFABS || w.ref < |segs|) && w.addr % 4 == 0
  }

  predicate EntryOk(im: Image) {
    im.entrySeg < |im.segs| && im.entryOff % 8 == 0 && im.entryOff < Wrap(|im.segs[im.entrySeg].data|)
  }

  predicate Validates(im: Image) {
    && (forall i :: 0 <= i < |im.segs| ==> SegOk(im.segs[i]))
    && (forall i :: 0 <= i < |im.relocs| ==> RelocOk(im.segs, im.relocs[i]))
    && (forall i :: 0 <= i < |im.writes| ==> WriteOk(im.segs, im.writes[i]))
    && EntryOk(im)
  }

  /** Every relocated word lies inside its segment. */
  predicate Inside(im: Image) {
    forall i :: 0 <= i < |im.relocs| ==>
                  im.relocs[i].seg < |im.segs| && im.relocs[i].off + 4 <= |im.segs[im.relocs[i].seg].data|
  }

  /** Small enough for the decoder's sanity bounds and for 32-bit sizes. */
  predicate Fits(im: Image) {
    |im.segs| <= 1024 && |im.relocs| <= 0x10_0000 && |im.writes| <= 0x1_0000
        && forall i :: 0 <= i < |im.segs| ==> |im.segs[i].data| < M32
  }

  /** Validation keeps relocations inside their segments, except at the one offset whose end wraps
      to zero. */
  lemma ValidInside(im: Image)
    requires Validates(im) && Fits(im)
    ensures Inside(im) <==> forall i :: 0 <= i < |im.relocs| ==> im.relocs[i].off != 0xFFFF_FFFC
  {
    forall i | 0 <= i < |im.relocs|
      ensures im.relocs[i].seg < |im.segs|
      ensures im.relocs[i].off + 4 <= |im.segs[im.relocs[i].seg].data| <==> im.relocs[i].off != 0xFFFF_FFFC
    {
      assert RelocOk(im.segs, im.relocs[i]);
    }
  }

  /** A validated image with a relocation outside its segment. */
  lemma ValidOutside()
    ensures exists im :: Validates(im) && Fits(im) && !Inside(im)
  {
    var im := Image([Segment(0, [0, 0, 0, 0, 0, 0, 0, 0])], [Reloc(0, 0xFFFF_FFFC, 0)], [], 0, 0);
    assert Validates(im) && Fits(im);
    assert im.relocs[0].off == 0xFFFF_FFFC;
    ValidInside(im);
  }

  /** Exactly the images the format admits, clause by clause. */
  lemma ValidExact(im: Image)
    requires Fits(im)
    ensures Validates(im) <==>
            && (forall i :: 0 <= i < |im.segs| ==> |im.segs[i].data| % 4 == 0 && im.segs[i].link % 4 == 0)
            && (forall i :: 0 <= i < |im.relocs| ==>
                              var r := im.relocs[i];
                              && r.seg < |im.segs| && r.ref < |im.segs| && r.off % 4 == 0
                              && (r.off + 4 <= |im.segs[r.seg].data| || r.off == 0xFFFF_FFFC))
            && (forall i :: 0 <= i < |im.writes| ==>
                              var w := im.writes[i]; (w.ref < |im.segs| || w.ref == 0xFFFF_FFFF) && w.addr % 4 == 0)
            && im.entrySeg < |im.segs| && im.entryOff % 8 == 0 && im.entryOff < |im.segs[im.entrySeg].data|
  {
    forall i | 0 <= i < |im.relocs| ensures RelocOk(im.segs, im.relocs[i]) <==> Relocates(im, im.relocs[i]) {
      RelocExact(im, im.relocs[i]);
    }
    hide RelocOk;
    assert Validates(im) ==> forall i :: 0 <= i < |im.relocs| ==> Relocates(im, im.relocs[i]);
  }

  ghost predicate Relocates(im: Image, r: Reloc) {
    && r.seg < |im.segs| && r.ref < |im.segs| && r.off % 4 == 0
    && (r.off + 4 <= |im.segs[r.seg].data| || r.off == 0xFFFF_FFFC)
  }

  /** The 32-bit sum in the offset test wraps at one aligned offset only. */
  lemma RelocExact(im: Image, r: Reloc)
    requires Fits(im)
    ensures RelocOk(im.segs, r) <==> Relocates(im, r)
  {
    if r.seg < |im.segs| {
      assert |im.segs[r.seg].data| < M32;
    }
  }

  // ----- encoding -----

  function SegWords(segs: seq<Segment>): (ws: seq<Word>)
    ensures |ws| == 2 * |segs|
    ensures forall i :: 0 <= i < |segs| ==> ws[2 * i] == segs[i].link && ws[2 * i + 1] == Wrap(|segs[i].data|)
  {
    if segs == [] then [] else SegWords(segs[..|segs| - 1]) + [segs[|segs| - 1].link, Wrap(|segs[|segs| - 1].data|)]
  }

  function RelWords(rs: seq<Reloc>): (ws: seq<Word>)
    ensures |ws| == 3 * |rs|
    ensures forall i :: 0 <= i < |rs| ==>
                          ws[3 * i] == rs[i].seg && ws[3 * i + 1] == rs[i].off && ws[3 * i + 2] == rs[i].ref
  {
    if rs == [] then [] else RelWords(rs[..|rs| - 1]) + [rs[|rs| - 1].seg, rs[|rs| - 1].off, rs[|rs| - 1].ref]
  }

  function WrWords(rs: seq<Write>): (ws: seq<Word>)
    ensures |ws| == 3 * |rs|
    ensures forall i :: 0 <= i < |rs| ==>
                          ws[3 * i] == rs[i].addr && ws[3 * i + 1] == rs[i].value && ws[3 * i + 2] == rs[i].ref
  {
    if rs == [] then [] else WrWords(rs[..|rs| - 1]) + [rs[|rs| - 1].addr, rs[|rs| - 1].value, rs[|rs| - 1].ref]
  }

  function DataOf(segs: seq<Segment>): seq<Byte> {
    if segs == [] then [] else DataOf(segs[..|segs| - 1]) + segs[|segs| - 1].data
  }

  function Header(im: Image): seq<Word> {
    [MAGIC, 0, Wrap(|im.segs|), Wrap(|im.relocs|), Wrap(|im.writes|), im.entrySeg, im.entryOff]
  }

  function Table(im: Image): seq<Word> {
    Header(im) + SegWords(im.segs) + RelWords(im.relocs) + WrWords(im.writes)
  }

  function Encoded(im: Image): seq<Byte> {
    Bytes(Table(im)) + DataOf(im.segs)
  }

  // ----- decoding -----

  /** The i-th word read: zero past the end. */
  function W(raw: seq<Byte>, i: nat): Word {
    if 4 * i + 4 <= |raw| then U32(raw, 4 * i) else 0
  }

  /** Where segment k's data starts, counted from the first segment's. */
  function Offset(raw: seq<Byte>, k: nat): nat {
    if k == 0 then 0 else Offset(raw, k - 1) + W(raw, 7 + 2 * (k - 1) + 1)
  }

  function TableLen(ns: nat, nr: nat, nw: nat): nat {
    7 + 2 * ns + 3 * nr + 3 * nw
  }

  /** The bytes the header and the segment table ask for. */
  function Needed(raw: seq<Byte>, ns: nat, nr: nat, nw: nat): nat {
    4 * TableLen(ns, nr, nw) + Offset(raw, ns)
  }

  lemma {:induction false} OffsetGrows(raw: seq<Byte>, i: nat, k: nat)
    requires i <= k
    ensures Offset(raw, i) <= Offset(raw, k)
    decreases k
  {
    if i < k { OffsetGrows(raw, i, k - 1); }
  }

  function SegAt(raw: seq<Byte>, start: nat, i: nat): Segment
    requires start + Offset(raw, i + 1) <= |raw|
  {
    Segment(W(raw, 7 + 2 * i), raw[start + Offset(raw, i)..start + Offset(raw, i + 1)])
  }

  function SegsOf(raw: seq<Byte>, start: nat, n: nat): (r: seq<Segment>)
    requires start + Offset(raw, n) <= |raw|
    ensures |r| == n
  {
    if n == 0 then [] else SegsOf(raw, start, n - 1) + [SegAt(raw, start, n - 1)]
  }

  function RelocsOf(raw: seq<Byte>, at: nat, n: nat): (r: seq<Reloc>)
    ensures |r| == n
  {
    if n == 0 then []
    else
      RelocsOf(raw, at, n - 1)
      + [Reloc(W(raw, at + 3 * (n - 1)), W(raw, at + 3 * (n - 1) + 1), W(raw, at + 3 * (n - 1) + 2))]
  }

  function WritesOf(raw: seq<Byte>, at: nat, n: nat): (r: seq<Write>)
    ensures |r| == n
  {
    if n == 0 then []
    else
      WritesOf(raw, at, n - 1)
      + [Write(W(raw, at + 3 * (n - 1)), W(raw, at + 3 * (n - 1) + 1), W(raw, at + 3 * (n - 1) + 2))]
  }

  function ImageOf(raw: seq<Byte>, ns: nat, nr: nat, nw: nat): Image
    requires Needed(raw, ns, nr, nw) <= |raw|
  {
    Image(SegsOf(raw, 4 * TableLen(ns, nr, nw), ns), RelocsOf(raw, 7 + 2 * ns, nr),
        WritesOf(raw, 7 + 2 * ns + 3 * nr, nw), W(raw, 5), W(raw, 6))
  }

  function Decoded(raw: seq<Byte>): Result<Image> {
    var ns, nr, nw := W(raw, 2), W(raw, 3), W(raw, 4);
    if W(raw, 0) != MAGIC then Err(BadMagic)
    else if W(raw, 1) != 0 then Err(BadFlags)
    else if ns > 1024 || nr > 0x10_0000 || nw > 0x1_0000 then Err(Implausible)
    else if |raw| < Needed(raw, ns, nr, nw) then Err(Truncated)
    else if |raw| > Needed(raw, ns, nr, nw) then Err(Trailing)
    else if !Validates(ImageOf(raw, ns, nr, nw)) then Err(Invalid)
    else Ok(ImageOf(raw, ns, nr, nw))
  }

  // ----- the round trips -----

  lemma {:induction false} SegsOfAt(raw: seq<Byte>, start: nat, n: nat, i: nat)
    requires i < n && start + Offset(raw, n) <= |raw|
    ensures start + Offset(raw, i + 1) <= |raw| && SegsOf(raw, start, n)[i] == SegAt(raw, start, i)
    decreases n
  {
    OffsetGrows(raw, i + 1, n);
    if i < n - 1 { SegsOfAt(raw, start, n - 1, i); }
  }

  lemma {:induction false} RelocsOfAt(raw: seq<Byte>, at: nat, n: nat, i: nat)
    requires i < n
    ensures RelocsOf(raw, at, n)[i] == Reloc(W(raw, at + 3 * i), W(raw, at + 3 * i + 1), W(raw, at + 3 * i + 2))
    decreases n
  {
    if i < n - 1 { RelocsOfAt(raw, at, n - 1, i); }
  }

  lemma {:induction false} WritesOfAt(raw: seq<Byte>, at: nat, n: nat, i: nat)
    requires i < n
    ensures WritesOf(raw, at, n)[i] == Write(W(raw, at + 3 * i), W(raw, at + 3 * i + 1), W(raw, at + 3 * i + 2))
    decreases n
  {
    if i < n - 1 { WritesOfAt(raw, at, n - 1, i); }
  }

  /** Words read from an encoding are the words of its table. */
  lemma {:induction false} TableAt(im: Image, i: nat)
    requires i < |Table(im)|
    ensures W(Encoded(im), i) == Table(im)[i]
  {
    BytesAt(Table(im), DataOf(im.segs), i);
  }

  lemma {:induction false} TableParts(im: Image, i: nat)
    ensures |Table(im)| == TableLen(|im.segs|, |im.relocs|, |im.writes|)
    ensures i < 7 ==> Table(im)[i] == Header(im)[i]
    ensures i < |im.segs| ==>
              Table(im)[7 + 2 * i] == im.segs[i].link && Table(im)[7 + 2 * i + 1] == Wrap(|im.segs[i].data|)
    ensures i < |im.relocs| ==> var at := 7 + 2 * |im.segs| + 3 * i;
              im.relocs[i] == Reloc(Table(im)[at], Table(im)[at + 1], Table(im)[at + 2])
    ensures i < |im.writes| ==> var at := 7 + 2 * |im.segs| + 3 * |im.relocs| + 3 * i;
              im.writes[i] == Write(Table(im)[at], Table(im)[at + 1], Table(im)[at + 2])
  {
    var a, b, c, d := Header(im), SegWords(im.segs), RelWords(im.relocs), WrWords(im.writes);
    assert Table(im) == a + b + c + d && |a| == 7;
    if i < |im.segs| { SegPart(im, i); }
    if i < |im.relocs| { RelPart(im, i); }
    if i < |im.writes| { WrPart(im, i); }
  }

  lemma {:induction false} SegPart(im: Image, i: nat)
    requires i < |im.segs|
    ensures |Table(im)| >= 7 + 2 * |im.segs|
    ensures Table(im)[7 + 2 * i] == im.segs[i].link && Table(im)[7 + 2 * i + 1] == Wrap(|im.segs[i].data|)
  {
    var t, b := Table(im), SegWords(im.segs);
    assert t[7 + 2 * i] == b[2 * i] && t[7 + 2 * i + 1] == b[2 * i + 1];
  }

  lemma {:induction false} RelPart(im: Image, i: nat)
    requires i < |im.relocs|
    ensures var at := 7 + 2 * |im.segs| + 3 * i;
            |Table(im)| >= at + 3 && im.relocs[i] == Reloc(Table(im)[at], Table(im)[at + 1], Table(im)[at + 2])
  {
    var t, c := Table(im), RelWords(im.relocs);
    var at := 7 + |SegWords(im.segs)| + 3 * i;
    assert t[at] == c[3 * i] && t[at + 1] == c[3 * i + 1] && t[at + 2] == c[3 * i + 2];
  }

  lemma {:induction false} WrPart(im: Image, i: nat)
    requires i < |im.writes|
    ensures var at := 7 + 2 * |im.segs| + 3 * |im.relocs| + 3 * i;
            |Table(im)| >= at + 3 && im.writes[i] == Write(Table(im)[at], Table(im)[at + 1], Table(im)[at + 2])
  {
    var t, d := Table(im), WrWords(im.writes);
    var at := 7 + |SegWords(im.segs)| + |RelWords(im.relocs)| + 3 * i;
    assert t[at] == d[3 * i] && t[at + 1] == d[3 * i + 1] && t[at + 2] == d[3 * i + 2];
  }

  lemma {:induction false} OffsetIs(im: Image, k: nat)
    requires Fits(im) && k <= |im.segs|
    ensures Offset(Encoded(im), k) == |DataOf(im.segs[..k])|
    decreases k
  {
    hide Encoded, Table, W;
    if k > 0 {
      OffsetIs(im, k - 1);
      TableParts(im, k - 1);
      TableAt(im, 7 + 2 * (k - 1) + 1);
      assert im.segs[..k][..k - 1] == im.segs[..k - 1];
    }
  }

  /** A segment's data inside the concatenation. */
  lemma {:induction false} DataSlice(segs: seq<Segment>, k: nat)
    requires k < |segs|
    ensures |DataOf(segs[..k])| + |segs[k].data| == |DataOf(segs[..k + 1])| <= |DataOf(segs)|
    ensures DataOf(segs)[|DataOf(segs[..k])|..|DataOf(segs[..k + 1])|] == segs[k].data
    decreases |segs|
  {
    var n := |segs| - 1;
    assert segs[..k + 1][..k] == segs[..k];
    if k < n {
      DataSlice(segs[..n], k);
      assert segs[..n][..k] == segs[..k] && segs[..n][..k + 1] == segs[..k + 1];
    } else {
      assert segs[..k + 1] == segs;
    }
  }

  lemma {:induction false} SegmentBack(im: Image, i: nat)
    requires Fits(im) && i < |im.segs|
    ensures var raw, start := Encoded(im), 4 * |Table(im)|;
            start + Offset(raw, i + 1) <= |raw| && SegAt(raw, start, i) == im.segs[i]
  {
    hide Table, W, Offset, Bytes, DataOf;
    var raw, start := Encoded(im), 4 * |Table(im)|;
    OffsetIs(im, i);
    OffsetIs(im, i + 1);
    DataSlice(im.segs, i);
    TableParts(im, i);
    TableAt(im, 7 + 2 * i);
    var d := DataOf(im.segs);
    assert raw[start + Offset(raw, i)..start + Offset(raw, i + 1)] == d[Offset(raw, i)..Offset(raw, i + 1)];
  }

  lemma {:induction false} HeaderBack(im: Image)
    requires Fits(im)
    ensures var raw := Encoded(im);
            && W(raw, 0) == MAGIC && W(raw, 1) == 0 && W(raw, 2) == |im.segs| && W(raw, 3) == |im.relocs|
                && W(raw, 4) == |im.writes|
            && W(raw, 5) == im.entrySeg && W(raw, 6) == im.entryOff
            && |raw| == Needed(raw, |im.segs|, |im.relocs|, |im.writes|)
  {
    hide Table, W, Offset, Bytes, DataOf;
    forall i: nat | i < 7 ensures W(Encoded(im), i) == Header(im)[i] { TableParts(im, i); TableAt(im, i); }
    TableParts(im, 0);
    OffsetIs(im, |im.segs|);
    assert im.segs[..|im.segs|] == im.segs;
  }

  /** Decoding an encoding gives the image back. */
  lemma {:induction false} EncodeDecode(im: Image)
    requires Validates(im) && Fits(im)
    ensures Decoded(Encoded(im)) == Ok(im)
  {
    hide Encoded, Table, Needed, W, Offset;
    HeaderBack(im);
    TableParts(im, 0);
    var raw, ns, nr, nw := Encoded(im), |im.segs|, |im.relocs|, |im.writes|;
    assert SegsOf(raw, 4 * TableLen(ns, nr, nw), ns) == im.segs by { SegsBack(im); }
    assert RelocsOf(raw, 7 + 2 * ns, nr) == im.relocs by { RelocsBack(im); }
    assert WritesOf(raw, 7 + 2 * ns + 3 * nr, nw) == im.writes by { WritesBack(im); }
  }

  lemma {:induction false} SegsBack(im: Image)
    requires Fits(im)
    ensures var raw, start := Encoded(im), 4 * TableLen(|im.segs|, |im.relocs|, |im.writes|);
            start + Offset(raw, |im.segs|) <= |raw| && SegsOf(raw, start, |im.segs|) == im.segs
  {
    var raw, start := Encoded(im), 4 * TableLen(|im.segs|, |im.relocs|, |im.writes|);
    HeaderBack(im);
    TableParts(im, 0);
    forall i: nat | i < |im.segs| ensures SegsOf(raw, start, |im.segs|)[i] == im.segs[i] {
      SegsOfAt(raw, start, |im.segs|, i);
      SegmentBack(im, i);
    }
  }

  lemma {:induction false} RelocsBack(im: Image)
    ensures RelocsOf(Encoded(im), 7 + 2 * |im.segs|, |im.relocs|) == im.relocs
  {
    hide Encoded, Table, W;
    var raw, at := Encoded(im), 7 + 2 * |im.segs|;
    forall i: nat | i < |im.relocs| ensures RelocsOf(raw, at, |im.relocs|)[i] == im.relocs[i] {
      RelocsOfAt(raw, at, |im.relocs|, i);
      TableParts(im, i);
      TableAt(im, at + 3 * i);
      TableAt(im, at + 3 * i + 1);
      TableAt(im, at + 3 * i + 2);
    }
  }

  lemma {:induction false} WritesBack(im: Image)
    ensures WritesOf(Encoded(im), 7 + 2 * |im.segs| + 3 * |im.relocs|, |im.writes|) == im.writes
  {
    hide Encoded, Table, W;
    var raw, at := Encoded(im), 7 + 2 * |im.segs| + 3 * |im.relocs|;
    forall i: nat | i < |im.writes| ensures WritesOf(raw, at, |im.writes|)[i] == im.writes[i] {
      WritesOfAt(raw, at, |im.writes|, i);
      TableParts(im, i);
      TableAt(im, at + 3 * i);
      TableAt(im, at + 3 * i + 1);
      TableAt(im, at + 3 * i + 2);
    }
  }

  // ----- the other way -----

  lemma {:induction false} DecodedFits(raw: seq<Byte>)
    requires Decoded(raw).Ok?
    ensures Fits(Decoded(raw).value) && Validates(Decoded(raw).value)
  {
    var ns, nr, nw := W(raw, 2), W(raw, 3), W(raw, 4);
    var start := 4 * TableLen(ns, nr, nw);
    forall i: nat | i < ns ensures |SegsOf(raw, start, ns)[i].data| < M32 { SegsOfAt(raw, start, ns, i); }
  }

  /** The round trip succeeds exactly for images within the decoder's bounds. */
  lemma {:induction false} RoundTripIff(im: Image)
    requires Validates(im)
    ensures Decoded(Encoded(im)) == Ok(im) <==> Fits(im)
  {
    if Fits(im) {
      EncodeDecode(im);
    } else if Decoded(Encoded(im)) == Ok(im) {
      DecodedFits(Encoded(im));
      assert false;
    }
  }

  /** An image the encoder accepts and the decoder refuses: one segment too many. */
  lemma TooManySegments()
    ensures exists im :: Validates(im) && Decoded(Encoded(im)) != Ok(im)
  {
    hide Decoded, Encoded;
    var s := Segment(0, [0, 0, 0, 0]);
    assert SegOk(s);
    var segs := seq(1025, _ => s);
    var im := Image(segs, [], [], 0, 0);
    assert segs[0] == s && EntryOk(im);
    forall i | 0 <= i < |im.segs| ensures SegOk(im.segs[i]) { assert im.segs[i] == s; }
    hide SegOk, EntryOk, Wrap;
    assert Validates(im);
    RoundTripIff(im);
  }

  lemma {:induction false} HeaderRead(raw: seq<Byte>, i: nat)
    requires Decoded(raw).Ok? && i < 7
    ensures Header(Decoded(raw).value)[i] == W(raw, i)
  {
    hide W, SegsOf, RelocsOf, WritesOf, Offset, Validates;
  }

  /** The words of a decoded image's table are the words it was read from. */
  lemma {:induction false} TableRead(raw: seq<Byte>, ns: nat, nr: nat, nw: nat, i: nat)
    requires Needed(raw, ns, nr, nw) <= |raw| && 7 <= i < |Table(ImageOf(raw, ns, nr, nw))|
    ensures Table(ImageOf(raw, ns, nr, nw))[i] == W(raw, i)
  {
    hide Table, W, SegsOf, RelocsOf, WritesOf, Offset, Wrap;
    var im := ImageOf(raw, ns, nr, nw);
    TableParts(im, 0);
    if i < 7 + 2 * ns {
      SegRead(raw, ns, nr, nw, (i - 7) / 2);
    } else if i < 7 + 2 * ns + 3 * nr {
      RelRead(raw, ns, nr, nw, (i - 7 - 2 * ns) / 3);
    } else {
      WrRead(raw, ns, nr, nw, (i - 7 - 2 * ns - 3 * nr) / 3);
    }
  }

  lemma {:induction false} SegRead(raw: seq<Byte>, ns: nat, nr: nat, nw: nat, k: nat)
    requires Needed(raw, ns, nr, nw) <= |raw| && k < ns
    ensures var t, at := Table(ImageOf(raw, ns, nr, nw)), 7 + 2 * k;
            |t| >= at + 2 && t[at] == W(raw, at) && t[at + 1] == W(raw, at + 1)
  {
    hide Table, W, SegsOf, RelocsOf, WritesOf, Offset, Wrap;
    SegPart(ImageOf(raw, ns, nr, nw), k);
    SegsOfAt(raw, 4 * TableLen(ns, nr, nw), ns, k);
    SegAtSize(raw, 4 * TableLen(ns, nr, nw), k);
  }

  lemma {:induction false} RelRead(raw: seq<Byte>, ns: nat, nr: nat, nw: nat, k: nat)
    requires Needed(raw, ns, nr, nw) <= |raw| && k < nr
    ensures var t, at := Table(ImageOf(raw, ns, nr, nw)), 7 + 2 * ns + 3 * k;
            |t| >= at + 3 && t[at] == W(raw, at) && t[at + 1] == W(raw, at + 1) && t[at + 2] == W(raw, at + 2)
  {
    hide Table, W, SegsOf, RelocsOf, WritesOf, Offset, Wrap;
    RelPart(ImageOf(raw, ns, nr, nw), k);
    RelocsOfAt(raw, 7 + 2 * ns, nr, k);
  }

  lemma {:induction false} WrRead(raw: seq<Byte>, ns: nat, nr: nat, nw: nat, k: nat)
    requires Needed(raw, ns, nr, nw) <= |raw| && k < nw
    ensures var t, at := Table(ImageOf(raw, ns, nr, nw)), 7 + 2 * ns + 3 * nr + 3 * k;
            |t| >= at + 3 && t[at] == W(raw, at) && t[at + 1] == W(raw, at + 1) && t[at + 2] == W(raw, at + 2)
  {
    hide Table, W, SegsOf, RelocsOf, WritesOf, Offset, Wrap;
    WrPart(ImageOf(raw, ns, nr, nw), k);
    WritesOfAt(raw, 7 + 2 * ns + 3 * nr, nw, k);
  }

  lemma {:induction false} SegAtSize(raw: seq<Byte>, start: nat, i: nat)
    requires start + Offset(raw, i + 1) <= |raw|
    ensures SegAt(raw, start, i).link == W(raw, 7 + 2 * i) && Wrap(|SegAt(raw, start, i).data|) == W(raw, 7 + 2 * i + 1)
  {
    hide W;
  }

  lemma {:induction false} BytesOfRead(raw: seq<Byte>, ws: seq<Word>)
    requires 4 * |ws| <= |raw| && forall i :: 0 <= i < |ws| ==> ws[i] == W(raw, i)
    ensures Bytes(ws) == raw[..4 * |ws|]
    decreases |ws|
  {
    if ws != [] {
      var n := |ws| - 1;
      BytesOfRead(raw, ws[..n]);
      U32LE(raw, 4 * n);
      assert raw[..4 * n] + raw[4 * n..4 * n + 4] == raw[..4 * |ws|];
    }
  }

  lemma SplitSlice(s: seq<Byte>, i: nat, j: nat, k: nat)
    requires i <= j <= k <= |s|
    ensures s[i..j] + s[j..k] == s[i..k]
  {
  }

  lemma {:induction false} LastSeg(raw: seq<Byte>, start: nat, n: nat)
    requires n > 0 && start + Offset(raw, n) <= |raw|
    ensures Offset(raw, n - 1) <= Offset(raw, n)
    ensures var s := SegsOf(raw, start, n);
            s[..n - 1] == SegsOf(raw, start, n - 1)
                && s[n - 1].data == raw[start + Offset(raw, n - 1)..start + Offset(raw, n)]
  {
    hide W;
  }

  lemma {:induction false} DataRead(raw: seq<Byte>, start: nat, n: nat)
    requires start + Offset(raw, n) <= |raw|
    ensures DataOf(SegsOf(raw, start, n)) == raw[start..start + Offset(raw, n)]
    decreases n
  {
    hide W, SegsOf;
    if n == 0 {
      assert SegsOf(raw, start, 0) == [];
    } else {
      LastSeg(raw, start, n);
      DataRead(raw, start, n - 1);
      SplitSlice(raw, start, start + Offset(raw, n - 1), start + Offset(raw, n));
      hide Offset;
      assert SegsOf(raw, start, n) != [];
    }
  }

  lemma {:induction false} AllRead(raw: seq<Byte>)
    requires Decoded(raw).Ok?
    ensures var t := Table(Decoded(raw).value); 4 * |t| <= |raw| && forall i :: 0 <= i < |t| ==> t[i] == W(raw, i)
  {
    hide Table, W, Offset, SegsOf, RelocsOf, WritesOf, Validates;
    var im := Decoded(raw).value;
    TableParts(im, 0);
    forall i: nat | i < |Table(im)| ensures Table(im)[i] == W(raw, i) {
      TableParts(im, i);
      if i < 7 {
        HeaderRead(raw, i);
      } else {
        TableRead(raw, W(raw, 2), W(raw, 3), W(raw, 4), i);
      }
    }
  }

  /** Every accepted file is the encoding of what it decodes to. */
  lemma {:induction false} DecodeEncode(raw: seq<Byte>)
    requires Decoded(raw).Ok?
    ensures Validates(Decoded(raw).value) && Encoded(Decoded(raw).value) == raw
  {
    hide Table, W, Offset, Validates, Bytes, DataOf;
    var im := Decoded(raw).value;
    var ns, nr, nw := W(raw, 2), W(raw, 3), W(raw, 4);
    TableParts(im, 0);
    AllRead(raw);
    BytesOfRead(raw, Table(im));
    DataRead(raw, 4 * TableLen(ns, nr, nw), ns);
    assert raw == raw[..4 * |Table(im)|] + raw[4 * |Table(im)|..];
  }

  /** The accepted files are exactly the encodings of valid images within the bounds. */
  lemma {:induction false} AcceptedIff(raw: seq<Byte>)
    ensures Decoded(raw).Ok? <==> exists im :: Validates(im) && Fits(im) && raw == Encoded(im)
  {
    hide Encoded, Validates, Fits;
    if Decoded(raw).Ok? {
      DecodedFits(raw);
      DecodeEncode(raw);
      assert raw == Encoded(Decoded(raw).value);
    }
    hide Decoded;
    if im :| Validates(im) && Fits(im) && raw == Encoded(im) { EncodeDecode(im); }
  }

  /** A file starts with "DMX1", no flags, the three counts and the entry. */
  lemma {:induction false} HeaderExact(im: Image)
    requires Fits(im)
    ensures var raw := Encoded(im);
            && |raw| >= 28 && raw[..4] == [0x44, 0x4D, 0x58, 0x31] && U32(raw, 4) == 0
            && U32(raw, 8) == |im.segs| && U32(raw, 12) == |im.relocs| && U32(raw, 16) == |im.writes|
            && U32(raw, 20) == im.entrySeg && U32(raw, 24) == im.entryOff
  {
    hide Encoded, Table, U32, LE;
    HeaderWord(im, 0); HeaderWord(im, 1); HeaderWord(im, 2); HeaderWord(im, 3);
    HeaderWord(im, 4); HeaderWord(im, 5); HeaderWord(im, 6);
    MagicBytes();
    U32LE(Encoded(im), 0);
    assert Encoded(im)[0..4] == Encoded(im)[..4];
  }

  lemma HeaderWord(im: Image, k: nat)
    requires k < 7
    ensures |Encoded(im)| >= 4 * k + 4 && U32(Encoded(im), 4 * k) == Header(im)[k]
  {
    hide Encoded, Table, U32;
    TableParts(im, k);
    WordAt(im, k);
  }

  lemma MagicBytes()
    ensures LE(MAGIC) == [0x44, 0x4D, 0x58, 0x31] && U32([0x44, 0x4D, 0x58, 0x31], 0) == MAGIC
  {
  }

  /** Behind it come two words for each segment, three for each relocation and three for each init
      write, and then the data. */
  lemma {:induction false} TableExact(im: Image, i: nat)
    requires Fits(im)
    ensures var raw, ns, nr, nw := Encoded(im), |im.segs|, |im.relocs|, |im.writes|;
            && |raw| >= 28 + 8 * ns + 12 * nr + 12 * nw
            && (i < ns ==> U32(raw, 28 + 8 * i) == im.segs[i].link && U32(raw, 32 + 8 * i) == |im.segs[i].data|)
            && (i < nr ==> TripleAt(raw, 28 + 8 * ns + 12 * i, im.relocs[i].seg, im.relocs[i].off, im.relocs[i].ref))
            && (i < nw ==> TripleAt(raw, 28 + 8 * ns + 12 * nr + 12 * i, im.writes[i].addr, im.writes[i].value,
                                    im.writes[i].ref))
            && raw[28 + 8 * ns + 12 * nr + 12 * nw..] == DataOf(im.segs)
  {
    TableParts(im, i);
    EncodedParts(im);
    hide Encoded, Table, U32, LE, Bytes;
    var ns, nr := |im.segs|, |im.relocs|;
    if i < ns {
      WordAt(im, 7 + 2 * i);
      WordAt(im, 7 + 2 * i + 1);
    }
    if i < nr { ThreeWords(im, 7 + 2 * ns + 3 * i); }
    if i < |im.writes| { ThreeWords(im, 7 + 2 * ns + 3 * nr + 3 * i); }
  }

  ghost predicate TripleAt(raw: seq<Byte>, x: nat, a: Word, b: Word, c: Word) {
    x + 12 <= |raw| && U32(raw, x) == a && U32(raw, x + 4) == b && U32(raw, x + 8) == c
  }

  lemma EncodedParts(im: Image)
    ensures |Encoded(im)| >= 4 * |Table(im)| && Encoded(im)[4 * |Table(im)|..] == DataOf(im.segs)
  {
    hide Table, DataOf;
  }

  lemma WordAt(im: Image, k: nat)
    requires k < |Table(im)|
    ensures |Encoded(im)| >= 4 * k + 4 && U32(Encoded(im), 4 * k) == Table(im)[k]
  {
    hide Table, DataOf, U32;
    BytesAt(Table(im), DataOf(im.segs), k);
  }

  lemma ThreeWords(im: Image, k: nat)
    requires k + 2 < |Table(im)|
    ensures |Encoded(im)| >= 4 * k + 12 && U32(Encoded(im), 4 * k) == Table(im)[k]
    ensures U32(Encoded(im), 4 * k + 4) == Table(im)[k + 1] && U32(Encoded(im), 4 * k + 8) == Table(im)[k + 2]
  {
    hide Encoded, Table;
    WordAt(im, k); WordAt(im, k + 1); WordAt(im, k + 2);
  }

  /** Why a file is refused, in the order the decoder asks. */
  lemma {:induction false} RefusedWhy(raw: seq<Byte>)
    ensures |raw| < 4 || raw[..4] != [0x44, 0x4D, 0x58, 0x31] ==> Decoded(raw) == Err(BadMagic)
    ensures |raw| >= 8 && raw[..4] == [0x44, 0x4D, 0x58, 0x31] && U32(raw, 4) != 0 ==> Decoded(raw) == Err(BadFlags)
    ensures |raw| >= 20 && raw[..4] == [0x44, 0x4D, 0x58, 0x31] && U32(raw, 4) == 0
            && (U32(raw, 8) > 1024 || U32(raw, 12) > 1048576 || U32(raw, 16) > 65536) ==>
              Decoded(raw) == Err(Implausible)
  {
    if |raw| >= 4 {
      U32LE(raw, 0);
      MagicBytes();
      assert raw[0..4] == raw[..4];
      if raw[..4] == [0x44, 0x4D, 0x58, 0x31] { assert U32(raw, 0) == U32(raw[..4], 0); }
    }
    hide U32, LE;
  }

  // ----- the code's own loops -----

  /** Appends words to the buffer. */
  method Put(buf: seq<Byte>, ws: seq<Word>) returns (out: seq<Byte>)
    ensures out == buf + Bytes(ws)
  {
    out := buf;
    for i := 0 to |ws|
      invariant out == buf + Bytes(ws[..i])
    {
      assert ws[..i + 1][..i] == ws[..i];
      out := out + LE(ws[i]);
    }
    assert ws[..|ws|] == ws;
  }

  method PutSegs(buf: seq<Byte>, segs: seq<Segment>) returns (out: seq<Byte>)
    ensures out == buf + Bytes(SegWords(segs))
  {
    out := buf;
    for i := 0 to |segs|
      invariant out == buf + Bytes(SegWords(segs[..i]))
    {
      var ws := [segs[i].link, Wrap(|segs[i].data|)];
      assert segs[..i + 1][..i] == segs[..i];
      BytesJoin(SegWords(segs[..i]), ws);
      out := Put(out, ws);
    }
    assert segs[..|segs|] == segs;
  }

  method PutRelocs(buf: seq<Byte>, rs: seq<Reloc>) returns (out: seq<Byte>)
    ensures out == buf + Bytes(RelWords(rs))
  {
    out := buf;
    for i := 0 to |rs|
      invariant out == buf + Bytes(RelWords(rs[..i]))
    {
      var ws := [rs[i].seg, rs[i].off, rs[i].ref];
      assert rs[..i + 1][..i] == rs[..i];
      BytesJoin(RelWords(rs[..i]), ws);
      out := Put(out, ws);
    }
    assert rs[..|rs|] == rs;
  }

  method PutWrites(buf: seq<Byte>, rs: seq<Write>) returns (out: seq<Byte>)
    ensures out == buf + Bytes(WrWords(rs))
  {
    out := buf;
    for i := 0 to |rs|
      invariant out == buf + Bytes(WrWords(rs[..i]))
    {
      var ws := [rs[i].addr, rs[i].value, rs[i].ref];
      assert rs[..i + 1][..i] == rs[..i];
      BytesJoin(WrWords(rs[..i]), ws);
      out := Put(out, ws);
    }
    assert rs[..|rs|] == rs;
  }

  method PutData(buf: seq<Byte>, segs: seq<Segment>) returns (out: seq<Byte>)
    ensures out == buf + DataOf(segs)
  {
    out := buf;
    for i := 0 to |segs|
      invariant out == buf + DataOf(segs[..i])
    {
      assert segs[..i + 1][..i] == segs[..i];
      out := out + segs[i].data;
    }
    assert segs[..|segs|] == segs;
  }

  /** Appends the header, the tables and the data to one buffer. */
  method Encode(im: Image) returns (r: Result<seq<Byte>>)
    ensures r == if Validates(im) then Ok(Encoded(im)) else Err(Invalid)
  {
    hide Bytes, DataOf, SegWords, RelWords, WrWords;
    if !Validates(im) { return Err(Invalid); }
    var out := Put([], Header(im));
    out := PutSegs(out, im.segs);
    out := PutRelocs(out, im.relocs);
    out := PutWrites(out, im.writes);
    BytesJoin(Header(im), SegWords(im.segs));
    BytesJoin(Header(im) + SegWords(im.segs), RelWords(im.relocs));
    BytesJoin(Header(im) + SegWords(im.segs) + RelWords(im.relocs), WrWords(im.writes));
    assert out == Bytes(Table(im));
    out := PutData(out, im.segs);
    r := Ok(out);
  }

  /** A cursor over the file with a sticky error. */
  class Reader {
    const raw: seq<Byte>
    var pos: nat
    var failed: bool
    ghost var count: nat

    /** After count words: failed exactly when they run past the end. */
    ghost predicate Reading()
      reads this
    {
      (failed <==> 4 * count > |raw|) && (!failed ==> pos == 4 * count)
    }

    constructor (raw: seq<Byte>)
      ensures Reading() && this.raw == raw && count == 0
    {
      this.raw := raw;
      pos, failed, count := 0, false, 0;
    }

    method Next() returns (w: Word)
      requires Reading()
      modifies this
      ensures Reading() && count == old(count) + 1 && w == W(raw, old(count))
    {
      count := count + 1;
      if failed { return 0; }
      if pos + 4 > |raw| {
        failed := true;
        return 0;
      }
      w := U32(raw, pos);
      pos := pos + 4;
    }

    /** The next n bytes. */
    method Take(n: nat) returns (s: seq<Byte>)
      requires pos <= |raw|
      modifies this
      ensures count == old(count) && pos <= |raw|
      ensures failed == (old(failed) || old(pos) + n > |raw|)
      ensures !failed ==> pos == old(pos) + n && s == raw[old(pos)..pos]
    {
      if failed || pos + n > |raw| {
        failed := true;
        return [];
      }
      s := raw[pos..pos + n];
      pos := pos + n;
    }
  }

  method ReadRelocs(rd: Reader, n: nat) returns (rs: seq<Reloc>)
    requires rd.Reading()
    modifies rd
    ensures rd.Reading() && rd.count == old(rd.count) + 3 * n && rs == RelocsOf(rd.raw, old(rd.count), n)
  {
    rs := [];
    for i := 0 to n
      invariant rd.Reading() && rd.count == old(rd.count) + 3 * i && rs == RelocsOf(rd.raw, old(rd.count), i)
    {
      var a := rd.Next();
      var b := rd.Next();
      var c := rd.Next();
      rs := rs + [Reloc(a, b, c)];
    }
  }

  method ReadWrites(rd: Reader, n: nat) returns (rs: seq<Write>)
    requires rd.Reading()
    modifies rd
    ensures rd.Reading() && rd.count == old(rd.count) + 3 * n && rs == WritesOf(rd.raw, old(rd.count), n)
  {
    rs := [];
    for i := 0 to n
      invariant rd.Reading() && rd.count == old(rd.count) + 3 * i && rs == WritesOf(rd.raw, old(rd.count), i)
    {
      var a := rd.Next();
      var b := rd.Next();
      var c := rd.Next();
      rs := rs + [Write(a, b, c)];
    }
  }

  /** The segment table: link addresses and sizes. */
  method ReadTable(rd: Reader, n: nat) returns (links: seq<Word>, sizes: seq<Word>)
    requires rd.Reading() && rd.count == 7
    modifies rd
    ensures rd.Reading() && rd.count == 7 + 2 * n && |links| == |sizes| == n
    ensures forall i :: 0 <= i < n ==> links[i] == W(rd.raw, 7 + 2 * i) && sizes[i] == W(rd.raw, 7 + 2 * i + 1)
  {
    links, sizes := [], [];
    for i := 0 to n
      invariant rd.Reading() && rd.count == 7 + 2 * i && |links| == |sizes| == i
      invariant forall k :: 0 <= k < i ==> links[k] == W(rd.raw, 7 + 2 * k) && sizes[k] == W(rd.raw, 7 + 2 * k + 1)
    {
      var a := rd.Next();
      var b := rd.Next();
      links, sizes := links + [a], sizes + [b];
    }
  }

  /** The segments' data, in table order. */
  method ReadData(rd: Reader, links: seq<Word>, sizes: seq<Word>) returns (segs: seq<Segment>)
    requires rd.Reading() && rd.pos <= |rd.raw| && |links| == |sizes|
    requires forall i :: 0 <= i < |links| ==> links[i] == W(rd.raw, 7 + 2 * i) && sizes[i] == W(rd.raw, 7 + 2 * i + 1)
    modifies rd
    ensures rd.failed <==> 4 * old(rd.count) + Offset(rd.raw, |links|) > |rd.raw|
    ensures !rd.failed ==>
              rd.pos == 4 * old(rd.count) + Offset(rd.raw, |links|)
              && segs == SegsOf(rd.raw, 4 * old(rd.count), |links|)
  {
    hide W;
    segs := [];
    for i := 0 to |links|
      invariant rd.pos <= |rd.raw|
      invariant rd.failed <==> 4 * old(rd.count) + Offset(rd.raw, i) > |rd.raw|
      invariant !rd.failed ==>
                  rd.pos == 4 * old(rd.count) + Offset(rd.raw, i) && segs == SegsOf(rd.raw, 4 * old(rd.count), i)
    {
      var s := rd.Take(sizes[i]);
      segs := segs + [Segment(links[i], s)];
    }
  }

  /** Reads the header, the tables and the data, and checks what it read. */
  method Decode(raw: seq<Byte>) returns (r: Result<Image>)
    ensures r == Decoded(raw)
  {
    hide W, Offset, SegsOf, RelocsOf, WritesOf, Validates;
    var rd := new Reader(raw);
    var magic := rd.Next();
    if magic != MAGIC { return Err(BadMagic); }
    var flags := rd.Next();
    if flags != 0 { return Err(BadFlags); }
    var ns := rd.Next();
    var nr := rd.Next();
    var nw := rd.Next();
    var entrySeg := rd.Next();
    var entryOff := rd.Next();
    if ns > 1024 || nr > 0x10_0000 || nw > 0x1_0000 { return Err(Implausible); }
    var links, sizes := ReadTable(rd, ns);
    var relocs := ReadRelocs(rd, nr);
    var writes := ReadWrites(rd, nw);
    assert rd.count == TableLen(ns, nr, nw);
    if rd.failed { return Err(Truncated); }
    var segs := ReadData(rd, links, sizes);
    if rd.failed { return Err(Truncated); }
    if rd.pos != |raw| { return Err(Trailing); }
    var im := Image(segs, relocs, writes, entrySeg, entryOff);
    if !Validates(im) { return Err(Invalid); }
    r := Ok(im);
  }
}
