/** Placing an image in memory (host/img/load.go): relocation by placement deltas, the overlap
    check, and what every word of every segment holds afterwards. */
module Loading {
  import opened Words
  import opened Images

  type Placement = map<int, Word>

  function PlaceOf(im: Image, pl: Placement, i: int): Word
    requires 0 <= i < |im.segs|
  {
    if i in pl then pl[i] else im.segs[i].link
  }

  /** How far a segment moved, modulo 2^32. */
  function DeltaOf(im: Image, pl: Placement, i: int): Word
    requires 0 <= i < |im.segs|
  {
    Sub(PlaceOf(im, pl, i), im.segs[i].link)
  }

  lemma DeltaRebases(im: Image, pl: Placement, i: int, off: Word)
    requires 0 <= i < |im.segs|
    ensures Add(Add(im.segs[i].link, off), DeltaOf(im, pl, i)) == Add(PlaceOf(im, pl, i), off)
  {
  }

  // ----- relocation -----

  /** Replaces the word at off. */
  function Patch(buf: seq<Byte>, off: int, w: Word): (r: seq<Byte>)
    requires 0 <= off && off + 4 <= |buf|
    ensures |r| == |buf|
  {
    buf[..off] + LE(w) + buf[off + 4..]
  }

  lemma PatchAt(buf: seq<Byte>, off: int, w: Word, k: int)
    requires 0 <= off && off + 4 <= |buf| && 0 <= k && k + 4 <= |buf| && off % 4 == 0 && k % 4 == 0
    ensures U32(Patch(buf, off, w), k) == if k == off then w else U32(buf, k)
  {
    var r := Patch(buf, off, w);
    if k == off {
      LEU32(w);
      assert r[k] == LE(w)[0] && r[k + 1] == LE(w)[1] && r[k + 2] == LE(w)[2] && r[k + 3] == LE(w)[3];
    } else if k < off {
      assert k + 4 <= off;
    } else {
      assert off + 4 <= k;
    }
  }

  predicate Names(r: Reloc, s: int, off: int) {
    r.seg == s && r.off == off
  }

  /** What the first n relocations add to the word at s:off. */
  function Rebase(relocs: seq<Reloc>, n: nat, s: int, off: int, deltas: seq<Word>): Word
    requires n <= |relocs| && forall i :: 0 <= i < |relocs| ==> relocs[i].ref < |deltas|
  {
    if n == 0 then 0
    else if Names(relocs[n - 1], s, off) then Add(Rebase(relocs, n - 1, s, off, deltas), deltas[relocs[n - 1].ref])
    else Rebase(relocs, n - 1, s, off, deltas)
  }

  ghost predicate RelocsOk(im: Image, deltas: seq<Word>) {
    && |deltas| == |im.segs|
    && (forall i :: 0 <= i < |im.relocs| ==>
                      im.relocs[i].ref < |im.segs| && im.relocs[i].seg < |im.segs| && im.relocs[i].off % 4 == 0)
    && Inside(im)
  }

  /** The first n relocations are in. */
  ghost predicate Rebased(im: Image, deltas: seq<Word>, n: int, bufs: seq<seq<Byte>>)
    requires RelocsOk(im, deltas) && 0 <= n <= |im.relocs|
  {
    && |bufs| == |im.segs| && (forall s :: 0 <= s < |bufs| ==> |bufs[s]| == |im.segs[s].data|)
    && forall s, k :: 0 <= s < |bufs| && 0 <= k && k + 4 <= |bufs[s]| && k % 4 == 0 ==>
                        U32(bufs[s], k) == Add(U32(im.segs[s].data, k), Rebase(im.relocs, n, s, k, deltas))
  }

  lemma AddAssoc(a: Word, b: Word, c: Word)
    ensures Add(Add(a, b), c) == Add(a, Add(b, c))
  {
  }

  lemma {:induction false} RebaseStep(im: Image, deltas: seq<Word>, n: nat, bufs: seq<seq<Byte>>)
    requires RelocsOk(im, deltas) && n < |im.relocs| && Rebased(im, deltas, n, bufs)
    ensures var r := im.relocs[n];
            && r.seg < |bufs| && r.off + 4 <= |bufs[r.seg]|
            && Rebased(im, deltas, n + 1,
                bufs[r.seg := Patch(bufs[r.seg], r.off, Add(U32(bufs[r.seg], r.off), deltas[r.ref]))])
  {
    var r := im.relocs[n];
    var b := Patch(bufs[r.seg], r.off, Add(U32(bufs[r.seg], r.off), deltas[r.ref]));
    var bufs' := bufs[r.seg := b];
    forall s, k | 0 <= s < |bufs'| && 0 <= k && k + 4 <= |bufs'[s]| && k % 4 == 0
      ensures U32(bufs'[s], k) == Add(U32(im.segs[s].data, k), Rebase(im.relocs, n + 1, s, k, deltas))
    {
      assert U32(bufs[s], k) == Add(U32(im.segs[s].data, k), Rebase(im.relocs, n, s, k, deltas));
      if s == r.seg {
        PatchAt(bufs[r.seg], r.off, Add(U32(bufs[r.seg], r.off), deltas[r.ref]), k);
        AddAssoc(U32(im.segs[s].data, k), Rebase(im.relocs, n, s, k, deltas), deltas[r.ref]);
      }
    }
  }

  /** Relocates scratch copies of the segments. */
  method Relocate(im: Image, deltas: seq<Word>) returns (bufs: seq<seq<Byte>>)
    requires RelocsOk(im, deltas)
    ensures Rebased(im, deltas, |im.relocs|, bufs)
  {
    bufs := seq(|im.segs|, i requires 0 <= i < |im.segs| => im.segs[i].data);
    for n := 0 to |im.relocs|
      invariant Rebased(im, deltas, n, bufs)
    {
      hide Rebased, Patch;
      RebaseStep(im, deltas, n, bufs);
      var r := im.relocs[n];
      bufs := bufs[r.seg := Patch(bufs[r.seg], r.off, Add(U32(bufs[r.seg], r.off), deltas[r.ref]))];
    }
  }

  // ----- overlap -----

  /** A placed segment that has any bytes; its end is computed in 32 bits. */
  datatype Extent = Extent(idx: int, start: Word, end: Word)

  predicate Meet(a: Extent, b: Extent) {
    a.start < b.end && b.start < a.end
  }

  predicate Sorted(es: seq<Extent>) {
    forall i, j :: 0 <= i < j < |es| ==> es[i].start <= es[j].start
  }

  predicate Distinct(es: seq<Extent>) {
    forall i, j :: 0 <= i < j < |es| ==> es[i].idx != es[j].idx
  }

  function InsertAt(es: seq<Extent>, i: nat, e: Extent): seq<Extent>
    requires i <= |es|
  {
    es[..i] + [e] + es[i..]
  }

  lemma InsertSorted(es: seq<Extent>, i: nat, e: Extent)
    requires i <= |es| && Sorted(es) && (forall k :: 0 <= k < i ==> es[k].start <= e.start)
    requires i < |es| ==> e.start <= es[i].start
    ensures Sorted(InsertAt(es, i, e))
  {
    var r := InsertAt(es, i, e);
    forall a, b | 0 <= a < b < |r| ensures r[a].start <= r[b].start {
      assert a > i ==> r[a] == es[a - 1];
      assert b > i ==> r[b] == es[b - 1];
    }
  }

  lemma InsertDistinct(es: seq<Extent>, i: nat, e: Extent)
    requires i <= |es| && Distinct(es) && forall k :: 0 <= k < |es| ==> es[k].idx != e.idx
    ensures Distinct(InsertAt(es, i, e))
  {
    var r := InsertAt(es, i, e);
    forall a, b | 0 <= a < b < |r| ensures r[a].idx != r[b].idx {
      assert a > i ==> r[a] == es[a - 1];
      assert b > i ==> r[b] == es[b - 1];
    }
  }

  lemma InsertKeeps(es: seq<Extent>, i: nat, e: Extent)
    requires i <= |es|
    ensures multiset(InsertAt(es, i, e)) == multiset(es) + multiset{e}
  {
    assert es == es[..i] + es[i..];
  }

  /** Inserts by start address. */
  method Insert(es: seq<Extent>, e: Extent) returns (r: seq<Extent>)
    requires Sorted(es) && Distinct(es) && forall k :: 0 <= k < |es| ==> es[k].idx != e.idx
    ensures Sorted(r) && Distinct(r) && multiset(r) == multiset(es) + multiset{e}
  {
    var i := 0;
    while i < |es| && es[i].start <= e.start
      invariant 0 <= i <= |es| && forall k :: 0 <= k < i ==> es[k].start <= e.start
    {
      i := i + 1;
    }
    InsertSorted(es, i, e);
    InsertDistinct(es, i, e);
    InsertKeeps(es, i, e);
    hide Sorted, Distinct, InsertAt;
    r := InsertAt(es, i, e);
  }

  method SortExtents(es: seq<Extent>) returns (r: seq<Extent>)
    requires Distinct(es)
    ensures Sorted(r) && Distinct(r) && multiset(r) == multiset(es)
  {
    r := [];
    for i := 0 to |es|
      invariant Sorted(r) && Distinct(r) && multiset(r) == multiset(es[..i])
    {
      assert es[..i + 1] == es[..i] + [es[i]];
      forall k | 0 <= k < |r| ensures r[k].idx != es[i].idx {
        assert r[k] in multiset(r);
        assert r[k] in es[..i];
      }
      r := Insert(r, es[i]);
    }
    assert es[..|es|] == es;
  }

  /** Among extents sorted by start, any overlap shows between neighbours. */
  lemma {:induction false} NeighboursEnough(es: seq<Extent>, i: nat, j: nat)
    requires Sorted(es) && (forall k :: 0 <= k < |es| ==> es[k].start < es[k].end)
    requires (forall k :: 0 < k < |es| ==> es[k - 1].end <= es[k].start) && i < j < |es|
    ensures !Meet(es[i], es[j])
    decreases j
  {
    if i < j - 1 { NeighboursEnough(es, i, j - 1); }
  }

  ghost predicate Apart(es: seq<Extent>) {
    forall a, b :: a in es && b in es && a.idx != b.idx ==> !Meet(a, b)
  }

  predicate Whole(es: seq<Extent>) {
    forall e :: e in es ==> e.start < e.end
  }

  ghost predicate Stepping(s: seq<Extent>, n: int) {
    forall k :: 0 < k < n && k < |s| ==> s[k - 1].end <= s[k].start
  }

  lemma {:induction false} SameMembers(s: seq<Extent>, es: seq<Extent>)
    requires multiset(s) == multiset(es)
    ensures forall e :: e in s <==> e in es
  {
    forall e ensures e in s <==> e in es { assert e in s <==> e in multiset(s); }
  }

  lemma {:induction false} SteppingMeans(s: seq<Extent>, a: Extent, b: Extent)
    requires Sorted(s) && Whole(s) && Stepping(s, |s|) && a in s && b in s && a.idx != b.idx
    ensures !Meet(a, b)
  {
    forall k | 0 <= k < |s| ensures s[k].start < s[k].end { assert s[k] in s; }
    var i :| 0 <= i < |s| && s[i] == a;
    var j :| 0 <= j < |s| && s[j] == b;
    if i < j { NeighboursEnough(s, i, j); } else { NeighboursEnough(s, j, i); }
  }

  lemma {:induction false} ClashFound(s: seq<Extent>, es: seq<Extent>, k: int)
    requires Sorted(s) && Distinct(s) && Whole(s) && (forall e :: e in s ==> e in es) && 0 < k < |s|
    requires s[k - 1].end > s[k].start
    ensures !Apart(es)
  {
    SortedAt(s, k);
    assert s[k - 1] in s && s[k] in s;
    assert Meet(s[k - 1], s[k]) && s[k - 1].idx != s[k].idx;
  }

  lemma {:induction false} Misstep(s: seq<Extent>) returns (k: int)
    requires !Stepping(s, |s|)
    ensures 0 < k < |s| && s[k - 1].end > s[k].start
  {
    k :| 0 < k < |s| && s[k - 1].end > s[k].start;
  }

  lemma {:induction false} SteppingApart(s: seq<Extent>, es: seq<Extent>)
    requires Sorted(s) && Distinct(s) && (forall e :: e in s <==> e in es) && Whole(es)
    ensures Stepping(s, |s|) <==> Apart(es)
  {
    assert Whole(s);
    hide Sorted, Distinct, Whole, Meet, Apart, Stepping;
    if Stepping(s, |s|) {
      SteppingClear(s, es);
    } else {
      var k := Misstep(s);
      ClashFound(s, es, k);
    }
  }

  lemma {:induction false} SteppingClear(s: seq<Extent>, es: seq<Extent>)
    requires Sorted(s) && Whole(s) && Stepping(s, |s|) && (forall e :: e in es ==> e in s)
    ensures Apart(es)
  {
    hide Sorted, Whole, Meet, Stepping;
    forall a, b | a in es && b in es && a.idx != b.idx ensures !Meet(a, b) { SteppingMeans(s, a, b); }
  }

  lemma SortedAt(s: seq<Extent>, k: int)
    requires Sorted(s) && 0 < k < |s|
    ensures s[k - 1].start <= s[k].start
  {
  }

  /** Sorts the extents and compares neighbours: exactly the pairwise check, while no extent's end
      wraps. */
  method CheckOverlap(es: seq<Extent>) returns (ok: bool)
    requires Distinct(es)
    ensures Whole(es) ==> (ok <==> Apart(es))
  {
    var s := SortExtents(es);
    ok := true;
    var i := 1;
    while i < |s|
      invariant 1 <= i && (ok <==> Stepping(s, i))
      decreases |s| - i
    {
      if s[i].start < s[i - 1].end { ok := false; }
      i := i + 1;
    }
    assert ok <==> Stepping(s, |s|);
    SameMembers(s, es);
    if Whole(es) { SteppingApart(s, es); }
  }

  // ----- memory -----

  /** The target: RAM as a window of bytes, the ranges loaded so far, and the words delivered to
      devices, in order. */
  datatype Target = Target(base: Word, size: nat, mem: map<int, Byte>, loaded: seq<(int, int)>, bus: seq<(Word, Word)>)

  predicate InRam(t: Target, addr: int, n: int) {
    t.base <= addr && addr - t.base + n <= t.size
  }

  function Store(mem: map<int, Byte>, addr: int, data: seq<Byte>): map<int, Byte> {
    if data == [] then mem else Store(mem, addr, data[..|data| - 1])[addr + |data| - 1 := data[|data| - 1]]
  }

  /** The byte at an address, -1 where nothing was ever written. */
  function ByteAt(mem: map<int, Byte>, a: int): int {
    if a in mem then mem[a] else -1
  }

  lemma {:induction false} StoreAt(mem: map<int, Byte>, addr: int, data: seq<Byte>)
    ensures forall a :: addr <= a < addr + |data| ==> ByteAt(Store(mem, addr, data), a) == data[a - addr]
    ensures forall a :: !(addr <= a < addr + |data|) ==> ByteAt(Store(mem, addr, data), a) == ByteAt(mem, a)
    decreases |data|
  {
    if data != [] {
      var n := |data| - 1;
      StoreAt(mem, addr, data[..n]);
      var m, m' := Store(mem, addr, data[..n]), Store(mem, addr, data);
      forall a | addr <= a < addr + |data| ensures ByteAt(m', a) == data[a - addr] {
        assert a < addr + n ==> ByteAt(m, a) == data[..n][a - addr];
      }
    }
  }

  /** Two byte ranges, as the target compares them. */
  predicate Clash(lo: int, hi: int, r: (int, int)) {
    lo < r.1 && r.0 < hi
  }

  predicate Free(t: Target, addr: int, n: int) {
    InRam(t, addr, n) && forall i :: 0 <= i < |t.loaded| ==> !Clash(addr, addr + n, t.loaded[i])
  }

  function Range(places: seq<Word>, bufs: seq<seq<Byte>>, i: int): (int, int)
    requires 0 <= i < |places| && i < |bufs|
  {
    (places[i], places[i] + |bufs[i]|)
  }

  function Ranges(places: seq<Word>, bufs: seq<seq<Byte>>, n: nat): (r: seq<(int, int)>)
    requires n <= |places| && n <= |bufs|
    ensures |r| == n && forall i :: 0 <= i < n ==> r[i] == Range(places, bufs, i)
  {
    seq(n, i requires 0 <= i < n => Range(places, bufs, i))
  }

  /** Segments fit the target and clash neither with what is loaded nor with each other. */
  ghost predicate AllFree(t: Target, places: seq<Word>, bufs: seq<seq<Byte>>, n: nat)
    requires n <= |places| && n <= |bufs|
  {
    && (forall i :: 0 <= i < n ==> Free(t, places[i], |bufs[i]|))
    && forall i, j :: 0 <= j < i < n ==> !Clash(places[i], places[i] + |bufs[i]|, Range(places, bufs, j))
  }

  predicate Covers(places: seq<Word>, bufs: seq<seq<Byte>>, i: int, a: int)
    requires 0 <= i < |places| && i < |bufs|
  {
    places[i] <= a < places[i] + |bufs[i]|
  }

  ghost predicate HoldsAll(mem: map<int, Byte>, places: seq<Word>, bufs: seq<seq<Byte>>, n: nat)
    requires n <= |places| && n <= |bufs|
  {
    forall i, a :: 0 <= i < n && Covers(places, bufs, i, a) ==> ByteAt(mem, a) == bufs[i][a - places[i]]
  }

  ghost predicate Elsewhere(mem: map<int, Byte>, mem': map<int, Byte>, places: seq<Word>, bufs: seq<seq<Byte>>, n: nat)
    requires n <= |places| && n <= |bufs|
  {
    forall a :: (forall i :: 0 <= i < n ==> !Covers(places, bufs, i, a)) ==> ByteAt(mem', a) == ByteAt(mem, a)
  }

  /** The first n segments are in memory; the rest of memory is as before. */
  ghost predicate Landed(t: Target, t': Target, places: seq<Word>, bufs: seq<seq<Byte>>, n: nat)
    requires n <= |places| && n <= |bufs|
  {
    && t'.base == t.base && t'.size == t.size && t'.bus == t.bus && t'.loaded == t.loaded + Ranges(places, bufs, n)
    && HoldsAll(t'.mem, places, bufs, n) && Elsewhere(t.mem, t'.mem, places, bufs, n)
  }

  lemma {:induction false} HoldsMore(mem: map<int, Byte>, places: seq<Word>, bufs: seq<seq<Byte>>, n: nat)
    requires n < |places| && n < |bufs| && HoldsAll(mem, places, bufs, n)
    requires forall j :: 0 <= j < n ==> !Clash(places[n], places[n] + |bufs[n]|, Range(places, bufs, j))
    ensures HoldsAll(Store(mem, places[n], bufs[n]), places, bufs, n + 1)
  {
    StoreAt(mem, places[n], bufs[n]);
    hide Store;
    var m := Store(mem, places[n], bufs[n]);
    forall i, a | 0 <= i < n + 1 && Covers(places, bufs, i, a) ensures ByteAt(m, a) == bufs[i][a - places[i]] {
      if i < n { assert !Clash(places[n], places[n] + |bufs[n]|, Range(places, bufs, i)); }
    }
  }

  lemma {:induction false} ElsewhereMore(mem: map<int, Byte>, mem': map<int, Byte>, places: seq<Word>,
                                         bufs: seq<seq<Byte>>, n: nat)
    requires n < |places| && n < |bufs| && Elsewhere(mem, mem', places, bufs, n)
    ensures Elsewhere(mem, Store(mem', places[n], bufs[n]), places, bufs, n + 1)
  {
    StoreAt(mem', places[n], bufs[n]);
    hide Store;
    forall a | forall i :: 0 <= i < n + 1 ==> !Covers(places, bufs, i, a)
      ensures ByteAt(Store(mem', places[n], bufs[n]), a) == ByteAt(mem, a)
    {
      assert !Covers(places, bufs, n, a);
    }
  }

  lemma {:induction false} LandMore(t: Target, t': Target, places: seq<Word>, bufs: seq<seq<Byte>>, n: nat)
    requires n < |places| && n < |bufs| && Landed(t, t', places, bufs, n)
    requires forall j :: 0 <= j < n ==> !Clash(places[n], places[n] + |bufs[n]|, Range(places, bufs, j))
    ensures Landed(t, t'.(mem := Store(t'.mem, places[n], bufs[n]), loaded := t'.loaded + [Range(places, bufs, n)]),
              places, bufs, n + 1)
  {
    hide HoldsAll, Elsewhere, Store;
    HoldsMore(t'.mem, places, bufs, n);
    ElsewhereMore(t.mem, t'.mem, places, bufs, n);
    assert Ranges(places, bufs, n + 1) == Ranges(places, bufs, n) + [Range(places, bufs, n)];
  }

  /** What the next segment must not clash with. */
  lemma {:induction false} FreeStep(t: Target, t': Target, places: seq<Word>, bufs: seq<seq<Byte>>, n: nat)
    requires n < |places| && n < |bufs| && Landed(t, t', places, bufs, n)
    ensures Free(t', places[n], |bufs[n]|) <==>
              Free(t, places[n], |bufs[n]|)
              && forall j :: 0 <= j < n ==> !Clash(places[n], places[n] + |bufs[n]|, Range(places, bufs, j))
  {
    var lo, hi := places[n], places[n] + |bufs[n]|;
    if Free(t', lo, |bufs[n]|) {
      forall i | 0 <= i < |t.loaded| ensures !Clash(lo, hi, t.loaded[i]) { assert t'.loaded[i] == t.loaded[i]; }
      forall j | 0 <= j < n
        ensures !Clash(lo, hi, Range(places, bufs, j))
      {
        assert t'.loaded[|t.loaded| + j] == Range(places, bufs, j);
      }
    } else if Free(t, lo, |bufs[n]|) && InRam(t', lo, |bufs[n]|) {
      var i :| 0 <= i < |t'.loaded| && Clash(lo, hi, t'.loaded[i]);
      if i < |t.loaded| {
        assert t'.loaded[i] == t.loaded[i];
      } else {
        assert t'.loaded[i] == Range(places, bufs, i - |t.loaded|);
      }
    }
  }

  /** Loads the segments in order; each must be in RAM and clear of everything loaded before. */
  method LoadSegments(t: Target, places: seq<Word>, bufs: seq<seq<Byte>>) returns (ok: bool, t': Target)
    requires |places| == |bufs|
    ensures ok <==> AllFree(t, places, bufs, |places|)
    ensures ok ==> Landed(t, t', places, bufs, |places|)
  {
    t' := t;
    for i := 0 to |places|
      invariant Landed(t, t', places, bufs, i) && AllFree(t, places, bufs, i)
    {
      hide Landed, Store, Free;
      FreeStep(t, t', places, bufs, i);
      if !Free(t', places[i], |bufs[i]|) { return false, t'; }
      LandMore(t, t', places, bufs, i);
      t' := t'.(mem := Store(t'.mem, places[i], bufs[i]), loaded := t'.loaded + [Range(places, bufs, i)]);
    }
    ok := true;
  }

  // ----- the loader -----

  datatype Outcome = Loaded(t: Target, entry: Word) | Failed

  /** Where every segment goes and how far it moved. */
  method Plan(im: Image, pl: Placement) returns (ok: bool, places: seq<Word>, deltas: seq<Word>)
    ensures ok <==> forall i :: 0 <= i < |im.segs| ==> PlaceOf(im, pl, i) % 4 == 0
    ensures ok ==>
              |places| == |deltas| == |im.segs|
              && forall i :: 0 <= i < |im.segs| ==> places[i] == PlaceOf(im, pl, i) && deltas[i] == DeltaOf(im, pl, i)
  {
    places, deltas := [], [];
    for i := 0 to |im.segs|
      invariant |places| == |deltas| == i
      invariant forall k :: 0 <= k < i ==>
                              places[k] == PlaceOf(im, pl, k) && deltas[k] == DeltaOf(im, pl, k) && places[k] % 4 == 0
    {
      var p := PlaceOf(im, pl, i);
      if p % 4 != 0 { return false, [], []; }
      places, deltas := places + [p], deltas + [DeltaOf(im, pl, i)];
    }
    ok := true;
  }

  /** The extents of the segments with data. */
  method Extents(segs: seq<Segment>, places: seq<Word>) returns (es: seq<Extent>)
    requires |segs| == |places|
    ensures Distinct(es)
    ensures forall e :: e in es <==> 0 <= e.idx < |segs| && |segs[e.idx].data| > 0 && e == ExtentOf(segs, places, e.idx)
  {
    es := [];
    for i := 0 to |segs|
      invariant Distinct(es) && (forall k :: 0 <= k < |es| ==> es[k].idx < i)
      invariant forall e :: e in es <==> 0 <= e.idx < i && |segs[e.idx].data| > 0 && e == ExtentOf(segs, places, e.idx)
    {
      if |segs[i].data| > 0 { es := es + [ExtentOf(segs, places, i)]; }
    }
  }

  function ExtentOf(segs: seq<Segment>, places: seq<Word>, i: int): (e: Extent)
    requires 0 <= i < |segs| && |segs| == |places|
    ensures e.idx == i
  {
    Extent(i, places[i], Wrap(places[i] + |segs[i].data|))
  }

  /** Segments that fit the target have whole extents, and clear ranges mean clear extents. */
  lemma {:induction false} FreeApart(t: Target, segs: seq<Segment>, places: seq<Word>, bufs: seq<seq<Byte>>,
                                     es: seq<Extent>)
    requires |segs| == |places| == |bufs| && (forall i :: 0 <= i < |segs| ==> |bufs[i]| == |segs[i].data|)
    requires t.base + t.size < M32
    requires AllFree(t, places, bufs, |places|)
    requires forall e :: e in es <==>
                           0 <= e.idx < |segs| && |segs[e.idx].data| > 0 && e == ExtentOf(segs, places, e.idx)
    ensures Whole(es) && Apart(es)
  {
    forall e | e in es ensures e.start == places[e.idx] && e.end == places[e.idx] + |bufs[e.idx]| {
      assert Free(t, places[e.idx], |bufs[e.idx]|);
    }
    forall a, b | a in es && b in es && a.idx != b.idx ensures !Meet(a, b) {
      if a.idx < b.idx {
        assert !Clash(places[b.idx], places[b.idx] + |bufs[b.idx]|, Range(places, bufs, a.idx));
      } else {
        assert !Clash(places[a.idx], places[a.idx] + |bufs[a.idx]|, Range(places, bufs, b.idx));
      }
    }
  }

  /** An init write's value, rebased when it names a segment. */
  function WriteValue(w: Write, deltas: seq<Word>): Word
    requires w.ref == REFABS || w.ref < |deltas|
  {
    if w.ref == REFABS then w.value else Add(w.value, deltas[w.ref])
  }

  predicate RefsOk(ws: seq<Write>, deltas: seq<Word>) {
    forall i :: 0 <= i < |ws| ==> ws[i].ref == REFABS || ws[i].ref < |deltas|
  }

  /** An init write the target takes: a word of RAM, or a register some device accepts. */
  predicate Takes(t: Target, a: Word, accepts: Word -> bool) {
    a % 4 == 0 && (InRam(t, a, 4) || accepts(a))
  }

  /** A bus write: RAM stores the word, anything else is a device's. */
  function Deliver(t: Target, a: Word, v: Word): Target {
    if InRam(t, a, 4) then t.(mem := Store(t.mem, a, LE(v))) else t.(bus := t.bus + [(a, v)])
  }

  function Delivered(t: Target, ws: seq<Write>, n: nat, deltas: seq<Word>): Target
    requires n <= |ws| && RefsOk(ws, deltas)
  {
    if n == 0 then t else Deliver(Delivered(t, ws, n - 1, deltas), ws[n - 1].addr, WriteValue(ws[n - 1], deltas))
  }

  /** The writes that reach devices. */
  function BusWrites(t: Target, ws: seq<Write>, n: nat, deltas: seq<Word>): seq<(Word, Word)>
    requires n <= |ws| && RefsOk(ws, deltas)
  {
    if n == 0 then []
    else BusWrites(t, ws, n - 1, deltas)
         + if InRam(t, ws[n - 1].addr, 4) then [] else [(ws[n - 1].addr, WriteValue(ws[n - 1], deltas))]
  }

  /** The last of the first n writes to an address, -1 if there is none. */
  function LastWrite(ws: seq<Write>, n: nat, a: int): (i: int)
    requires n <= |ws|
    ensures -1 <= i < n && (i >= 0 ==> ws[i].addr == a) && forall k :: i < k < n ==> ws[k].addr != a
  {
    if n == 0 then -1 else if ws[n - 1].addr == a then n - 1 else LastWrite(ws, n - 1, a)
  }

  /** The word of memory at an address. */
  function MemWord(mem: map<int, Byte>, a: int): int {
    ByteAt(mem, a) + 0x100 * ByteAt(mem, a + 1) + 0x1_0000 * ByteAt(mem, a + 2) + 0x100_0000 * ByteAt(mem, a + 3)
  }

  /** Everything the loader demands of a placement. */
  ghost predicate Loadable(im: Image, pl: Placement, t: Target, accepts: Word -> bool) {
    && (forall i :: 0 <= i < |im.segs| ==>
                      PlaceOf(im, pl, i) % 4 == 0 && Free(t, PlaceOf(im, pl, i), |im.segs[i].data|))
    && (forall i, j :: 0 <= j < i < |im.segs| ==>
          !Clash(PlaceOf(im, pl, i), PlaceOf(im, pl, i) + |im.segs[i].data|,
              (PlaceOf(im, pl, j), PlaceOf(im, pl, j) + |im.segs[j].data|)))
    && forall i :: 0 <= i < |im.writes| ==> Takes(t, im.writes[i].addr, accepts)
  }

  ghost function Deltas(im: Image, pl: Placement): (d: seq<Word>)
    ensures |d| == |im.segs| && forall i :: 0 <= i < |d| ==> d[i] == DeltaOf(im, pl, i)
  {
    seq(|im.segs|, i requires 0 <= i < |im.segs| => DeltaOf(im, pl, i))
  }

  ghost predicate InSome(im: Image, pl: Placement, a: int) {
    exists i :: 0 <= i < |im.segs| && PlaceOf(im, pl, i) <= a < PlaceOf(im, pl, i) + |im.segs[i].data|
  }

  /** The word at s:k as its relocations leave it. */
  ghost function PlacedAs(im: Image, pl: Placement, s: int, k: int): Word
    requires RelocsOk(im, Deltas(im, pl)) && 0 <= s < |im.segs| && 0 <= k && k + 4 <= |im.segs[s].data|
  {
    Add(U32(im.segs[s].data, k), Rebase(im.relocs, |im.relocs|, s, k, Deltas(im, pl)))
  }

  /** What an init write leaves at its address. */
  ghost function WrittenAs(im: Image, pl: Placement, i: int): Word
    requires RefsOk(im.writes, Deltas(im, pl)) && 0 <= i < |im.writes|
  {
    WriteValue(im.writes[i], Deltas(im, pl))
  }

  ghost function LastTo(im: Image, a: int): (i: int)
    ensures -1 <= i < |im.writes| && (i >= 0 ==> im.writes[i].addr == a)
  {
    LastWrite(im.writes, |im.writes|, a)
  }

  /** The word at s:k in the end: that of the last init write to it, if there is one. */
  ghost function FinalAs(im: Image, pl: Placement, s: int, k: int): Word
    requires RelocsOk(im, Deltas(im, pl)) && RefsOk(im.writes, Deltas(im, pl))
    requires 0 <= s < |im.segs| && 0 <= k && k + 4 <= |im.segs[s].data|
  {
    var i := LastTo(im, PlaceOf(im, pl, s) + k);
    if i >= 0 then WrittenAs(im, pl, i) else PlacedAs(im, pl, s, k)
  }

  /** A whole word of segment s. */
  predicate IsWord(im: Image, s: int, k: int) {
    0 <= s < |im.segs| && 0 <= k && k + 4 <= |im.segs[s].data| && k % 4 == 0
  }

  ghost predicate SegmentsAs(im: Image, pl: Placement, mem: map<int, Byte>)
    requires RelocsOk(im, Deltas(im, pl)) && RefsOk(im.writes, Deltas(im, pl))
  {
    forall s, k :: IsWord(im, s, k) ==> MemWord(mem, PlaceOf(im, pl, s) + k) == FinalAs(im, pl, s, k)
  }

  ghost predicate WritesAs(im: Image, pl: Placement, t: Target, mem: map<int, Byte>)
    requires RefsOk(im.writes, Deltas(im, pl))
  {
    forall i :: 0 <= i < |im.writes| && InRam(t, im.writes[i].addr, 4) && LastTo(im, im.writes[i].addr) == i ==>
                  MemWord(mem, im.writes[i].addr) == WrittenAs(im, pl, i)
  }

  /** What loading leaves: every word of every segment moved by its relocations unless an init
      write replaces it, every other RAM word an init write names, nothing else in memory touched,
      device writes delivered in order, and the entry at its placed address. */
  /** The target's window is as before, and it lists every placed segment after what was loaded. */
  ghost predicate Recorded(im: Image, pl: Placement, t: Target, t': Target) {
    && t'.base == t.base && t'.size == t.size && |t'.loaded| == |t.loaded| + |im.segs| && t.loaded <= t'.loaded
    && forall i :: 0 <= i < |im.segs| ==>
                     t'.loaded[|t.loaded| + i] == (PlaceOf(im, pl, i), PlaceOf(im, pl, i) + |im.segs[i].data|)
  }

  ghost predicate LoadedAs(im: Image, pl: Placement, t: Target, t': Target, entry: Word)
    requires Validates(im) && RelocsOk(im, Deltas(im, pl)) && RefsOk(im.writes, Deltas(im, pl))
  {
    && SegmentsAs(im, pl, t'.mem)
    && WritesAs(im, pl, t, t'.mem)
    && (forall a :: !InSome(im, pl, a) && LastTo(im, a - a % 4) < 0 ==> ByteAt(t'.mem, a) == ByteAt(t.mem, a))
    && t'.bus == t.bus + BusWrites(t, im.writes, |im.writes|, Deltas(im, pl))
    && Recorded(im, pl, t, t')
    && entry == Add(PlaceOf(im, pl, im.entrySeg), im.entryOff)
  }

  // ----- init writes -----

  lemma {:induction false} StoreWord(mem: map<int, Byte>, a: int, v: Word, b: int)
    requires a % 4 == 0
    ensures b % 4 == 0 ==> MemWord(Store(mem, a, LE(v)), b) == if a == b then v else MemWord(mem, b)
    ensures b - b % 4 != a ==> ByteAt(Store(mem, a, LE(v)), b) == ByteAt(mem, b)
  {
    hide Store, LE, ByteAt;
    StoreAt(mem, a, LE(v));
    LEU32(v);
    var m, d := Store(mem, a, LE(v)), LE(v);
    if b == a {
      assert ByteAt(m, a) == d[0] && ByteAt(m, a + 1) == d[1] && ByteAt(m, a + 2) == d[2] && ByteAt(m, a + 3) == d[3];
    } else if b % 4 == 0 {
      assert b + 4 <= a || a + 4 <= b;
    }
  }

  ghost predicate Aligned(ws: seq<Write>) {
    forall i :: 0 <= i < |ws| ==> ws[i].addr % 4 == 0
  }

  lemma {:induction false} DeliveredShape(t: Target, ws: seq<Write>, n: nat, deltas: seq<Word>)
    requires n <= |ws| && RefsOk(ws, deltas)
    ensures var d := Delivered(t, ws, n, deltas);
            d.base == t.base && d.size == t.size && d.loaded == t.loaded && d.bus == t.bus + BusWrites(t, ws, n, deltas)
    decreases n
  {
    if n > 0 { DeliveredShape(t, ws, n - 1, deltas); }
  }

  /** RAM after the writes: the last one to a word decides it. */
  lemma {:induction false} DeliveredWord(t: Target, ws: seq<Write>, n: nat, deltas: seq<Word>, a: int)
    requires n <= |ws| && RefsOk(ws, deltas) && Aligned(ws)
    ensures a % 4 == 0 && InRam(t, a, 4) ==>
              MemWord(Delivered(t, ws, n, deltas).mem, a)
              == var i := LastWrite(ws, n, a); if i >= 0 then WriteValue(ws[i], deltas) else MemWord(t.mem, a)
    ensures LastWrite(ws, n, a - a % 4) < 0 ==> ByteAt(Delivered(t, ws, n, deltas).mem, a) == ByteAt(t.mem, a)
    decreases n
  {
    hide MemWord, Store, ByteAt;
    if n > 0 {
      DeliveredWord(t, ws, n - 1, deltas, a);
      DeliveredShape(t, ws, n - 1, deltas);
      StoreWord(Delivered(t, ws, n - 1, deltas).mem, ws[n - 1].addr, WriteValue(ws[n - 1], deltas), a);
    }
  }

  lemma {:induction false} LandedWord(mem: map<int, Byte>, places: seq<Word>, bufs: seq<seq<Byte>>, s: int, k: int)
    requires |places| == |bufs| && HoldsAll(mem, places, bufs, |places|) && 0 <= s < |places| && 0 <= k
    requires k + 4 <= |bufs[s]|
    ensures MemWord(mem, places[s] + k) == U32(bufs[s], k)
  {
    var a := places[s] + k;
    assert Covers(places, bufs, s, a) && Covers(places, bufs, s, a + 1) && Covers(places, bufs, s, a + 2)
        && Covers(places, bufs, s, a + 3);
  }

  lemma {:induction false} LandedWords(im: Image, pl: Placement, t: Target, t': Target, places: seq<Word>,
                                       bufs: seq<seq<Byte>>)
    requires Validates(im) && RelocsOk(im, Deltas(im, pl)) && Rebased(im, Deltas(im, pl), |im.relocs|, bufs)
    requires |places| == |im.segs| && (forall i :: 0 <= i < |places| ==> places[i] == PlaceOf(im, pl, i))
    requires Landed(t, t', places, bufs, |places|)
    ensures forall s, k :: IsWord(im, s, k) ==> MemWord(t'.mem, PlaceOf(im, pl, s) + k) == PlacedAs(im, pl, s, k)
    ensures forall a :: !InSome(im, pl, a) ==> ByteAt(t'.mem, a) == ByteAt(t.mem, a)
  {
    hide Validates, HoldsAll, MemWord, Rebase, U32, Deltas, Inside;
    forall s, k | IsWord(im, s, k) ensures MemWord(t'.mem, PlaceOf(im, pl, s) + k) == U32(bufs[s], k) {
      LandedWord(t'.mem, places, bufs, s, k);
    }
    forall a | !InSome(im, pl, a) ensures ByteAt(t'.mem, a) == ByteAt(t.mem, a) {
      forall i | 0 <= i < |places| ensures !Covers(places, bufs, i, a) { assert places[i] == PlaceOf(im, pl, i); }
    }
  }

  /** Delivers the init writes in table order. */
  method ApplyWrites(t: Target, ws: seq<Write>, deltas: seq<Word>, accepts: Word -> bool) returns (ok: bool, t': Target)
    requires RefsOk(ws, deltas)
    ensures ok <==> forall i :: 0 <= i < |ws| ==> Takes(t, ws[i].addr, accepts)
    ensures ok ==> t' == Delivered(t, ws, |ws|, deltas)
  {
    t' := t;
    for i := 0 to |ws|
      invariant t' == Delivered(t, ws, i, deltas) && forall k :: 0 <= k < i ==> Takes(t, ws[k].addr, accepts)
    {
      DeliveredShape(t, ws, i, deltas);
      if !Takes(t', ws[i].addr, accepts) { return false, t'; }
      t' := Deliver(t', ws[i].addr, WriteValue(ws[i], deltas));
    }
    ok := true;
  }

  lemma {:induction false} LoadableFree(im: Image, pl: Placement, t: Target, accepts: Word -> bool, places: seq<Word>,
                                        bufs: seq<seq<Byte>>)
    requires |places| == |bufs| == |im.segs|
    requires forall i :: 0 <= i < |places| ==>
                           places[i] == PlaceOf(im, pl, i) && places[i] % 4 == 0 && |bufs[i]| == |im.segs[i].data|
    ensures Loadable(im, pl, t, accepts) <==>
              AllFree(t, places, bufs, |places|)
              && forall i :: 0 <= i < |im.writes| ==> Takes(t, im.writes[i].addr, accepts)
  {
    hide Free, Clash, Takes;
    if AllFree(t, places, bufs, |places|) {
      forall i, j | 0 <= j < i < |im.segs|
        ensures !Clash(PlaceOf(im, pl, i), PlaceOf(im, pl, i) + |im.segs[i].data|,
                  (PlaceOf(im, pl, j), PlaceOf(im, pl, j) + |im.segs[j].data|))
      {
        assert !Clash(places[i], places[i] + |bufs[i]|, Range(places, bufs, j));
      }
    }
  }

  /** Everything before memory is touched: placements, the relocated copies and the overlap check. */
  method Stage(im: Image, pl: Placement, t: Target, accepts: Word -> bool)
    returns (ok: bool, places: seq<Word>, deltas: seq<Word>, bufs: seq<seq<Byte>>)
    requires RelocsOk(im, Deltas(im, pl)) && t.base + t.size < M32
    ensures Loadable(im, pl, t, accepts) ==> ok
    ensures ok ==> |places| == |bufs| == |im.segs| && deltas == Deltas(im, pl) && Rebased(im, deltas, |im.relocs|, bufs)
    ensures ok ==>
              forall i :: 0 <= i < |places| ==>
                            places[i] == PlaceOf(im, pl, i) && places[i] % 4 == 0 && |bufs[i]| == |im.segs[i].data|
  {
    hide Rebased, Rebase, Apart, Inside, AllFree;
    ok, places, deltas := Plan(im, pl);
    bufs := [];
    if !ok { return; }
    assert deltas == Deltas(im, pl);
    bufs := Relocate(im, deltas);
    SizesKept(im, deltas, bufs);
    LoadableFree(im, pl, t, accepts, places, bufs);
    hide Loadable;
    var es := Extents(im.segs, places);
    ghost var free := AllFree(t, places, bufs, |places|);
    if free { FreeApart(t, im.segs, places, bufs, es); }
    ok := CheckOverlap(es);
  }

  lemma WordInside(t: Target, p: int, len: nat, k: int)
    requires p % 4 == 0 && k % 4 == 0 && 0 <= k && k + 4 <= len && InRam(t, p, len)
    ensures (p + k) % 4 == 0 && InRam(t, p + k, 4)
  {
  }

  lemma {:induction false} FinalWord(im: Image, pl: Placement, t1: Target, s: int, k: int)
    requires RelocsOk(im, Deltas(im, pl)) && RefsOk(im.writes, Deltas(im, pl)) && Aligned(im.writes) && IsWord(im, s, k)
    requires PlaceOf(im, pl, s) % 4 == 0 && InRam(t1, PlaceOf(im, pl, s), |im.segs[s].data|)
    requires MemWord(t1.mem, PlaceOf(im, pl, s) + k) == PlacedAs(im, pl, s, k)
    ensures MemWord(Delivered(t1, im.writes, |im.writes|, Deltas(im, pl)).mem, PlaceOf(im, pl, s) + k)
              == FinalAs(im, pl, s, k)
  {
    hide MemWord, ByteAt, RelocsOk, RefsOk, Aligned, Delivered, Deltas, PlacedAs, InRam, PlaceOf, WriteValue, LastWrite;
    WordInside(t1, PlaceOf(im, pl, s), |im.segs[s].data|, k);
    DeliveredWord(t1, im.writes, |im.writes|, Deltas(im, pl), PlaceOf(im, pl, s) + k);
  }

  lemma {:induction false} FinalWords(im: Image, pl: Placement, t1: Target)
    requires RelocsOk(im, Deltas(im, pl)) && RefsOk(im.writes, Deltas(im, pl)) && Aligned(im.writes)
    requires forall s :: 0 <= s < |im.segs| ==>
                           PlaceOf(im, pl, s) % 4 == 0 && InRam(t1, PlaceOf(im, pl, s), |im.segs[s].data|)
    requires forall s, k :: IsWord(im, s, k) ==> MemWord(t1.mem, PlaceOf(im, pl, s) + k) == PlacedAs(im, pl, s, k)
    ensures SegmentsAs(im, pl, Delivered(t1, im.writes, |im.writes|, Deltas(im, pl)).mem)
  {
    hide MemWord, RelocsOk, Delivered, Deltas, PlacedAs, FinalAs, PlaceOf;
    forall s, k | IsWord(im, s, k)
      ensures MemWord(Delivered(t1, im.writes, |im.writes|, Deltas(im, pl)).mem, PlaceOf(im, pl, s) + k)
                == FinalAs(im, pl, s, k)
    {
      FinalWord(im, pl, t1, s, k);
    }
  }

  lemma {:induction false} WrittenWords(im: Image, pl: Placement, t: Target)
    requires RefsOk(im.writes, Deltas(im, pl)) && Aligned(im.writes)
    ensures WritesAs(im, pl, t, Delivered(t, im.writes, |im.writes|, Deltas(im, pl)).mem)
  {
    hide MemWord, Delivered, Deltas;
    forall i | 0 <= i < |im.writes| && InRam(t, im.writes[i].addr, 4) && LastTo(im, im.writes[i].addr) == i
      ensures MemWord(Delivered(t, im.writes, |im.writes|, Deltas(im, pl)).mem, im.writes[i].addr)
                == WrittenAs(im, pl, i)
    {
      DeliveredWord(t, im.writes, |im.writes|, Deltas(im, pl), im.writes[i].addr);
    }
  }

  lemma {:induction false} LoadedIs(im: Image, pl: Placement, t: Target, t1: Target, t2: Target, places: seq<Word>,
                                    bufs: seq<seq<Byte>>)
    requires Validates(im) && RelocsOk(im, Deltas(im, pl)) && Rebased(im, Deltas(im, pl), |im.relocs|, bufs)
    requires |places| == |im.segs|
    requires forall i :: 0 <= i < |places| ==> places[i] == PlaceOf(im, pl, i) && places[i] % 4 == 0
    requires Landed(t, t1, places, bufs, |places|)
    requires forall s :: 0 <= s < |im.segs| ==> InRam(t, PlaceOf(im, pl, s), |im.segs[s].data|)
    requires RefsOk(im.writes, Deltas(im, pl)) && Aligned(im.writes)
    requires t2 == Delivered(t1, im.writes, |im.writes|, Deltas(im, pl))
    ensures LoadedAs(im, pl, t, t2, Add(PlaceOf(im, pl, im.entrySeg), im.entryOff))
  {
    var n, d := |im.writes|, Deltas(im, pl);
    LandedWords(im, pl, t, t1, places, bufs);
    assert t1.base == t.base && t1.size == t.size && t1.bus == t.bus;
    assert forall s :: 0 <= s < |im.segs| ==> PlaceOf(im, pl, s) == places[s];
    DeliveredShape(t1, im.writes, n, d);
    LandedRecorded(im, pl, t, t1, places, bufs);
    BusSame(t, t1, im.writes, n, d);
    hide MemWord, ByteAt, InSome, Rebased, RelocsOk, Delivered, Deltas, Validates, Landed, PlacedAs, BusWrites, LastTo,
        SegmentsAs;
    hide PlaceOf, RefsOk;
    FinalWords(im, pl, t1);
    WrittenWords(im, pl, t1);
    SameWrites(im, pl, t, t1, t2.mem);
    hide WritesAs;
    KeptBytes(im, pl, t1);
  }

  lemma {:induction false} LandedRecorded(im: Image, pl: Placement, t: Target, t1: Target, places: seq<Word>,
                                          bufs: seq<seq<Byte>>)
    requires |places| == |bufs| == |im.segs| && Landed(t, t1, places, bufs, |places|)
    requires forall i :: 0 <= i < |places| ==> places[i] == PlaceOf(im, pl, i) && |bufs[i]| == |im.segs[i].data|
    ensures Recorded(im, pl, t, t1)
  {
    hide HoldsAll, Elsewhere;
  }

  lemma SameWrites(im: Image, pl: Placement, t: Target, t1: Target, mem: map<int, Byte>)
    requires RefsOk(im.writes, Deltas(im, pl)) && t.base == t1.base && t.size == t1.size && WritesAs(im, pl, t1, mem)
    ensures WritesAs(im, pl, t, mem)
  {
  }

  lemma {:induction false} KeptBytes(im: Image, pl: Placement, t: Target)
    requires RefsOk(im.writes, Deltas(im, pl)) && Aligned(im.writes)
    ensures forall a :: LastTo(im, a - a % 4) < 0 ==>
                          ByteAt(Delivered(t, im.writes, |im.writes|, Deltas(im, pl)).mem, a) == ByteAt(t.mem, a)
  {
    hide ByteAt, Delivered, Deltas;
    forall a | LastTo(im, a - a % 4) < 0
      ensures ByteAt(Delivered(t, im.writes, |im.writes|, Deltas(im, pl)).mem, a) == ByteAt(t.mem, a)
    {
      DeliveredWord(t, im.writes, |im.writes|, Deltas(im, pl), a);
    }
  }

  lemma {:induction false} BusSame(t: Target, t': Target, ws: seq<Write>, n: nat, deltas: seq<Word>)
    requires n <= |ws| && RefsOk(ws, deltas) && t.base == t'.base && t.size == t'.size
    ensures BusWrites(t, ws, n, deltas) == BusWrites(t', ws, n, deltas)
    decreases n
  {
    if n > 0 { BusSame(t, t', ws, n - 1, deltas); }
  }

  /** Loads a validated image: it succeeds exactly for the placements the target can take, and then
      leaves the image as placed. */
  method Load(im: Image, pl: Placement, t: Target, accepts: Word -> bool) returns (r: Outcome)
    requires Validates(im) && Inside(im) && t.base + t.size < M32
    ensures RelocsOk(im, Deltas(im, pl)) && RefsOk(im.writes, Deltas(im, pl))
    ensures r.Loaded? <==> Loadable(im, pl, t, accepts)
    ensures r.Loaded? ==> LoadedAs(im, pl, t, r.t, r.entry)
  {
    ValidParts(im, pl);
    hide Validates, Inside, AllFree, Landed, Rebased, LoadedAs, RelocsOk, RefsOk;
    var ok, places, deltas, bufs := Stage(im, pl, t, accepts);
    if !ok { return Failed; }
    LoadableFree(im, pl, t, accepts, places, bufs);
    LoadableRam(im, pl, t, accepts);
    hide Loadable;
    var t1, t2;
    ok, t1 := LoadSegments(t, places, bufs);
    if !ok { return Failed; }
    SameWindow(t, t1, places, bufs, accepts);
    ok, t2 := ApplyWrites(t1, im.writes, deltas, accepts);
    if !ok { return Failed; }
    LoadedIs(im, pl, t, t1, t2, places, bufs);
    r := Loaded(t2, Add(places[im.entrySeg], im.entryOff));
  }

  /** A byte of a range loaded before is in no segment of an image the target can take. */
  lemma {:induction false} ApartFrom(im: Image, pl: Placement, t: Target, accepts: Word -> bool, j: int, a: int)
    requires Loadable(im, pl, t, accepts) && 0 <= j < |t.loaded| && t.loaded[j].0 <= a < t.loaded[j].1
    ensures !InSome(im, pl, a)
  {
    forall i | 0 <= i < |im.segs|
      ensures !(PlaceOf(im, pl, i) <= a < PlaceOf(im, pl, i) + |im.segs[i].data|)
    {
      var p, n := PlaceOf(im, pl, i), |im.segs[i].data|;
      assert Free(t, p, n) && !Clash(p, p + n, t.loaded[j]);
    }
  }

  /** Loading a second image leaves every word of the first as it was, but for the second one's init
      writes to it. */
  lemma {:induction false} EarlierKept(im: Image, pl: Placement, t0: Target, t1: Target, entry: Word,
                                       im': Image, pl': Placement, t2: Target, entry': Word, accepts: Word -> bool,
                                       s: int, k: int)
    requires Validates(im) && RelocsOk(im, Deltas(im, pl)) && RefsOk(im.writes, Deltas(im, pl))
    requires Validates(im') && RelocsOk(im', Deltas(im', pl')) && RefsOk(im'.writes, Deltas(im', pl'))
    requires LoadedAs(im, pl, t0, t1, entry) && Loadable(im', pl', t1, accepts) && LoadedAs(im', pl', t1, t2, entry')
    requires IsWord(im, s, k) && PlaceOf(im, pl, s) % 4 == 0
    requires LastTo(im', PlaceOf(im, pl, s) + k) < 0
    ensures MemWord(t2.mem, PlaceOf(im, pl, s) + k) == FinalAs(im, pl, s, k)
  {
    hide Validates, RelocsOk, RefsOk, WritesAs, BusWrites, Deltas, FinalAs, PlaceOf, LastTo, Loadable, InSome, MemWord,
        ByteAt;
    var at, j := PlaceOf(im, pl, s) + k, |t0.loaded| + s;
    forall a | at <= a < at + 4 ensures ByteAt(t2.mem, a) == ByteAt(t1.mem, a) {
      ApartFrom(im', pl', t1, accepts, j, a);
      assert a - a % 4 == at;
    }
    SameBytes(t1.mem, t2.mem, at);
  }

  lemma SameBytes(mem: map<int, Byte>, mem': map<int, Byte>, at: int)
    requires forall a :: at <= a < at + 4 ==> ByteAt(mem', a) == ByteAt(mem, a)
    ensures MemWord(mem', at) == MemWord(mem, at)
  {
    assert ByteAt(mem', at) == ByteAt(mem, at) && ByteAt(mem', at + 1) == ByteAt(mem, at + 1);
    assert ByteAt(mem', at + 2) == ByteAt(mem, at + 2) && ByteAt(mem', at + 3) == ByteAt(mem, at + 3);
  }

  /** The entry of a loaded image is inside the placed entry segment, at a multiple of eight from its
      start. */
  lemma {:induction false} EntryInside(im: Image, pl: Placement, t: Target, t': Target, entry: Word,
                                       accepts: Word -> bool)
    requires Validates(im) && Images.Fits(im) && Loadable(im, pl, t, accepts) && t.base + t.size < M32
    requires RelocsOk(im, Deltas(im, pl)) && RefsOk(im.writes, Deltas(im, pl)) && LoadedAs(im, pl, t, t', entry)
    ensures 0 <= im.entrySeg < |im.segs|
    ensures var p := PlaceOf(im, pl, im.entrySeg);
            p <= entry < p + |im.segs[im.entrySeg].data| && (entry - p) % 8 == 0 && entry - p == im.entryOff
  {
    Images.ValidExact(im);
    hide Validates, LoadedAs, RelocsOk, RefsOk;
    assert entry == Add(PlaceOf(im, pl, im.entrySeg), im.entryOff) by { EntryIs(im, pl, t, t', entry); }
  }

  lemma EntryIs(im: Image, pl: Placement, t: Target, t': Target, entry: Word)
    requires Validates(im) && RelocsOk(im, Deltas(im, pl)) && RefsOk(im.writes, Deltas(im, pl))
    requires LoadedAs(im, pl, t, t', entry)
    ensures 0 <= im.entrySeg < |im.segs| && entry == Add(PlaceOf(im, pl, im.entrySeg), im.entryOff)
  {
  }

  lemma LoadableRam(im: Image, pl: Placement, t: Target, accepts: Word -> bool)
    ensures Loadable(im, pl, t, accepts) ==>
              Aligned(im.writes) && forall s :: 0 <= s < |im.segs| ==> InRam(t, PlaceOf(im, pl, s), |im.segs[s].data|)
  {
  }

  lemma SameWindow(t: Target, t1: Target, places: seq<Word>, bufs: seq<seq<Byte>>, accepts: Word -> bool)
    requires |places| == |bufs| && Landed(t, t1, places, bufs, |places|)
    ensures forall a :: Takes(t, a, accepts) <==> Takes(t1, a, accepts)
  {
  }

  lemma ValidParts(im: Image, pl: Placement)
    requires Validates(im) && Inside(im)
    ensures RelocsOk(im, Deltas(im, pl)) && im.entrySeg < |im.segs| && RefsOk(im.writes, Deltas(im, pl))
  {
    forall i | 0 <= i < |im.writes| ensures im.writes[i].ref == REFABS || im.writes[i].ref < |im.segs| {
      assert WriteOk(im.segs, im.writes[i]);
    }
    forall i | 0 <= i < |im.relocs|
      ensures im.relocs[i].ref < |im.segs| && im.relocs[i].seg < |im.segs| && im.relocs[i].off % 4 == 0
    {
      assert RelocOk(im.segs, im.relocs[i]);
    }
  }

  lemma SizesKept(im: Image, deltas: seq<Word>, bufs: seq<seq<Byte>>)
    requires RelocsOk(im, deltas) && Rebased(im, deltas, |im.relocs|, bufs)
    ensures |bufs| == |im.segs| && forall i :: 0 <= i < |bufs| ==> |bufs[i]| == |im.segs[i].data|
  {
  }

  // ----- init writes into segments -----

  /** Every segment word ends up as its relocations leave it. */
  ghost predicate SegmentsKept(im: Image, pl: Placement)
    requires RelocsOk(im, Deltas(im, pl)) && RefsOk(im.writes, Deltas(im, pl))
  {
    forall s, k :: IsWord(im, s, k) ==> FinalAs(im, pl, s, k) == PlacedAs(im, pl, s, k)
  }

  /** No init write lands in a placed segment. */
  ghost predicate Clear(im: Image, pl: Placement) {
    forall i :: 0 <= i < |im.writes| ==> !InSome(im, pl, im.writes[i].addr)
  }

  /** The image with other values in its init writes. */
  function Revalued(im: Image, vs: seq<Word>): Image
    requires |vs| == |im.writes|
  {
    im.(writes := seq(|vs|, i requires 0 <= i < |vs| => im.writes[i].(value := vs[i])))
  }

  lemma {:induction false} LastSame(ws: seq<Write>, ws': seq<Write>, n: nat, a: int)
    requires n <= |ws| == |ws'| && forall i :: 0 <= i < |ws| ==> ws[i].addr == ws'[i].addr
    ensures LastWrite(ws, n, a) == LastWrite(ws', n, a)
    decreases n
  {
    if n > 0 { LastSame(ws, ws', n - 1, a); }
  }

  /** New values change neither deltas nor placed words. */
  lemma {:induction false} RevaluedSame(im: Image, pl: Placement, vs: seq<Word>)
    requires |vs| == |im.writes| && RelocsOk(im, Deltas(im, pl)) && RefsOk(im.writes, Deltas(im, pl))
    ensures var im' := Revalued(im, vs);
            && Deltas(im', pl) == Deltas(im, pl) && RelocsOk(im', Deltas(im', pl))
                && RefsOk(im'.writes, Deltas(im', pl))
            && (forall s, k :: IsWord(im, s, k) ==> PlacedAs(im', pl, s, k) == PlacedAs(im, pl, s, k))
            && (forall a :: LastTo(im', a) == LastTo(im, a))
  {
    var im' := Revalued(im, vs);
    assert Deltas(im', pl) == Deltas(im, pl);
    forall a ensures LastTo(im', a) == LastTo(im, a) { LastSame(im.writes, im'.writes, |im.writes|, a); }
  }

  lemma {:induction false} ClearKept(im: Image, pl: Placement)
    requires RelocsOk(im, Deltas(im, pl)) && RefsOk(im.writes, Deltas(im, pl)) && Clear(im, pl)
    ensures SegmentsKept(im, pl)
  {
    forall s, k | IsWord(im, s, k) ensures LastTo(im, PlaceOf(im, pl, s) + k) < 0 {
      assert InSome(im, pl, PlaceOf(im, pl, s) + k);
    }
  }

  lemma Unmoved(was: Word, d: Word)
    ensures Add(Sub(Add(was, 1), d), d) != was && Sub(Add(was, 1), 0) != was
  {
  }

  /** A value that a write of im leaves wrong at s:k. */
  lemma {:induction false} OverwriteWith(im: Image, pl: Placement, i: int, s: int, k: int) returns (vs: seq<Word>)
    requires RelocsOk(im, Deltas(im, pl)) && RefsOk(im.writes, Deltas(im, pl)) && IsWord(im, s, k)
    requires 0 <= i < |im.writes| && LastTo(im, PlaceOf(im, pl, s) + k) == i
    ensures |vs| == |im.writes|
    ensures var im' := Revalued(im, vs);
            RelocsOk(im', Deltas(im', pl)) && RefsOk(im'.writes, Deltas(im', pl)) && !SegmentsKept(im', pl)
  {
    var w, d := im.writes[i], Deltas(im, pl);
    var was := PlacedAs(im, pl, s, k);
    var move := if w.ref == REFABS then 0 else d[w.ref];
    Unmoved(was, move);
    var v: Word := Sub(Add(was, 1), move);
    vs := seq(|im.writes|, _ => v);
    RevaluedSame(im, pl, vs);
    hide RelocsOk, Deltas, PlacedAs, LastTo, Wrap, Sub;
    var im' := Revalued(im, vs);
    assert im'.writes[i] == w.(value := v);
    assert WrittenAs(im', pl, i) != was;
    assert IsWord(im', s, k) && FinalAs(im', pl, s, k) != PlacedAs(im', pl, s, k);
  }

  /** Whatever values the init writes carry, every segment word keeps its placed value exactly when
      no write address lies in a placed extent. */
  lemma {:induction false} KeptIff(im: Image, pl: Placement)
    requires Validates(im) && Inside(im) && forall s :: 0 <= s < |im.segs| ==> PlaceOf(im, pl, s) % 4 == 0
    ensures Clear(im, pl) <==>
            forall vs :: |vs| == |im.writes| ==>
                           var im' := Revalued(im, vs);
                           RelocsOk(im', Deltas(im', pl)) && RefsOk(im'.writes, Deltas(im', pl))
                               && SegmentsKept(im', pl)
  {
    ValidParts(im, pl);
    hide RelocsOk, RefsOk, Deltas;
    if Clear(im, pl) {
      forall vs | |vs| == |im.writes|
        ensures var im' := Revalued(im, vs);
                RelocsOk(im', Deltas(im', pl)) && RefsOk(im'.writes, Deltas(im', pl)) && SegmentsKept(im', pl)
      {
        RevaluedSame(im, pl, vs);
        assert Clear(Revalued(im, vs), pl);
        ClearKept(Revalued(im, vs), pl);
      }
    } else {
      var i, s := HitAt(im, pl);
      var a := im.writes[i].addr;
      var vs := OverwriteWith(im, pl, LastTo(im, a), s, a - PlaceOf(im, pl, s));
    }
  }

  lemma {:induction false} HitAt(im: Image, pl: Placement) returns (i: int, s: int)
    requires Validates(im) && !Clear(im, pl) && forall s :: 0 <= s < |im.segs| ==> PlaceOf(im, pl, s) % 4 == 0
    ensures 0 <= i < |im.writes| && 0 <= s < |im.segs| && IsWord(im, s, im.writes[i].addr - PlaceOf(im, pl, s))
    ensures LastTo(im, im.writes[i].addr) >= 0
  {
    i :| 0 <= i < |im.writes| && InSome(im, pl, im.writes[i].addr);
    var a := im.writes[i].addr;
    s :| 0 <= s < |im.segs| && PlaceOf(im, pl, s) <= a < PlaceOf(im, pl, s) + |im.segs[s].data|;
    assert WriteOk(im.segs, im.writes[i]) && SegOk(im.segs[s]);
    WholeWord(a, PlaceOf(im, pl, s), |im.segs[s].data|);
  }

  lemma WholeWord(a: int, place: int, len: int)
    requires a % 4 == place % 4 == len % 4 == 0 && place <= a < place + len
    ensures (a - place) % 4 == 0 && a - place + 4 <= len
  {
  }

  /** An init write over the first word of the only segment. */
  function Overwriting(): Image {
    Image([Segment(0x2000_0000, [1, 0, 0, 0, 0, 0, 0, 0])], [], [Write(0x2000_0000, 7, REFABS)], 0, 0)
  }

  lemma {:induction false} OverwritingDeltas()
    ensures RelocsOk(Overwriting(), Deltas(Overwriting(), map[]))
    ensures RefsOk(Overwriting().writes, Deltas(Overwriting(), map[]))
  {
  }

  /** It is valid and loads at its link address, and its word 1 ends up 7. */
  lemma {:induction false} Overwritten(t: Target, t': Target, entry: Word, accepts: Word -> bool)
    requires t.base == 0x2000_0000 && t.size >= 8 && t.loaded == []
    ensures RelocsOk(Overwriting(), Deltas(Overwriting(), map[]))
    ensures RefsOk(Overwriting().writes, Deltas(Overwriting(), map[]))
    ensures Validates(Overwriting()) && Inside(Overwriting()) && Loadable(Overwriting(), map[], t, accepts)
    ensures PlacedAs(Overwriting(), map[], 0, 0) == 1
    ensures LoadedAs(Overwriting(), map[], t, t', entry) ==> MemWord(t'.mem, 0x2000_0000) == 7
  {
    OverwritingDeltas();
    var im := Overwriting();
    assert IsWord(im, 0, 0) && LastTo(im, 0x2000_0000) == 0;
    hide MemWord;
    assert FinalAs(im, map[], 0, 0) == 7;
  }
}
