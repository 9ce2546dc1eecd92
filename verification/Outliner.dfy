/** The outliner (host/dmacc/outline.go): repeated straight-line sequences move into shared helpers,
    and the rewritten program executes the same instructions. */
module Outliner {

  // ----- programs as lines -----

  /** Sections keep RAM-resident code apart from flash text. An instruction is movable when it
      neither addresses another record's fields nor carries a placeholder; a terminal one transfers
      control. Markers are labels nothing refers to. */
  datatype Line =
    | Instr(id: int, sec: int, movable: bool, term: bool, recs: nat)
    | Marker
    | FnLabel(eligible: bool)
    | SysLabel
    | BlockLabel(hot: bool)
    | OtherLabel
    | Directive
    | Comment
    | Blank

  predicate Moves(l: Line) {
    l.Instr? && l.movable
  }

  // ----- whose code it is -----

  /** Lines that begin or end a function's code. */
  predicate Heads(l: Line) {
    l.FnLabel? || l.SysLabel? || l.Directive? || l.Comment?
  }

  /** Line k is the last such line before i, and the label of an eligible function. */
  ghost predicate Within(lines: seq<Line>, k: int, i: int) {
    0 <= k < i <= |lines| && lines[k].FnLabel? && lines[k].eligible && forall j :: k < j < i ==> !Heads(lines[j])
  }

  /** Line b is the last block label between k and i. */
  ghost predicate BlockOf(lines: seq<Line>, k: int, b: int, i: int) {
    0 <= k < b < i <= |lines| && lines[b].BlockLabel? && forall j :: b < j < i ==> !lines[j].BlockLabel?
  }

  ghost predicate InFunction(lines: seq<Line>, i: int) {
    exists k :: Within(lines, k, i)
  }

  /** Code at i is an eligible function's, and its block, if it has one, is not hot. */
  ghost predicate Owned(lines: seq<Line>, i: int) {
    exists k :: Within(lines, k, i) && forall b :: BlockOf(lines, k, b, i) ==> !lines[b].hot
  }

  /** The instruction ids of lines a to b. */
  function Ids(lines: seq<Line>, a: int, b: int): (r: seq<int>)
    requires 0 <= a <= b <= |lines|
    decreases b
  {
    if a == b then [] else Ids(lines, a, b - 1) + if lines[b - 1].Instr? then [lines[b - 1].id] else []
  }

  lemma {:induction false} IdsSplit(lines: seq<Line>, a: int, b: int, c: int)
    requires 0 <= a <= b <= c <= |lines|
    ensures Ids(lines, a, c) == Ids(lines, a, b) + Ids(lines, b, c)
    decreases c
  {
    if b < c { IdsSplit(lines, a, b, c - 1); }
  }

  /** The first instruction at or after a line, or the end. */
  function Skip(lines: seq<Line>, i: int): (r: int)
    requires 0 <= i <= |lines|
    ensures i <= r <= |lines| && (r < |lines| ==> lines[r].Instr?)
    ensures forall k :: i <= k < r ==> !lines[k].Instr?
    decreases |lines| - i
  {
    if i == |lines| || lines[i].Instr? then i else Skip(lines, i + 1)
  }

  lemma {:induction false} NoIds(lines: seq<Line>, a: int, b: int)
    requires 0 <= a <= b <= |lines| && forall k :: a <= k < b ==> !lines[k].Instr?
    ensures Ids(lines, a, b) == []
    decreases b
  {
    if a < b { NoIds(lines, a, b - 1); }
  }

  // ----- execution -----

  /** Where control goes next: on, to a line, or nowhere. */
  datatype Next = Fall | To(line: int) | Halt

  /** What instructions do: a movable one depends on its text and the world alone, any other also
      on where it stands. */
  datatype Semantics = Semantics(moved: (int, int) -> (int, Next), fixed: (int, int) -> (int, Next))

  /** Code that control can be sent to: a label, or the line behind an instruction that is not
      movable, a call's return point. */
  predicate EntryPoint(lines: seq<Line>, k: int) {
    && 0 <= k <= |lines|
    && (k == |lines| || (!lines[k].Instr? && !lines[k].Marker?)
        || (k > 0 && lines[k - 1].Instr? && !lines[k - 1].movable))
  }

  ghost predicate SemOk(lines: seq<Line>, sem: Semantics) {
    && (forall i, w :: 0 <= i < |lines| && Moves(lines[i]) ==>
                      (sem.moved(lines[i].id, w).1 == Fall <==> !lines[i].term))
    && (forall i, w :: 0 <= i < |lines| && Moves(lines[i]) && sem.moved(lines[i].id, w).1.To? ==>
                      EntryPoint(lines, sem.moved(lines[i].id, w).1.line))
    && (forall i, w :: 0 <= i < |lines| && lines[i].Instr? && !lines[i].movable && sem.fixed(i, w).1.To? ==>
                      EntryPoint(lines, sem.fixed(i, w).1.line))
  }

  /** An executed instruction: its text or its place, and the world it found. */
  datatype Event = Ran(id: int, w: int) | RanAt(line: int, w: int)

  datatype Orig = Orig(pc: int, w: int) | Stopped(w: int)

  /** Lands on the next instruction. */
  function Land(lines: seq<Line>, i: int, w: int): Orig {
    if 0 <= i <= |lines| && Skip(lines, i) < |lines| then Orig(Skip(lines, i), w) else Stopped(w)
  }

  predicate Placed(lines: seq<Line>, s: Orig) {
    s.Orig? ==> 0 <= s.pc < |lines| && lines[s.pc].Instr?
  }

  function Follow(lines: seq<Line>, i: int, r: (int, Next)): Orig
    requires 0 <= i < |lines|
  {
    match r.1
    case Fall => Land(lines, i + 1, r.0)
    case To(k) => Land(lines, k, r.0)
    case Halt => Stopped(r.0)
  }

  function StepOrig(lines: seq<Line>, sem: Semantics, s: Orig): (r: (Orig, Event))
    requires s.Orig? && Placed(lines, s)
    ensures Placed(lines, r.0)
  {
    var l := lines[s.pc];
    if l.movable then (Follow(lines, s.pc, sem.moved(l.id, s.w)), Ran(l.id, s.w))
    else (Follow(lines, s.pc, sem.fixed(s.pc, s.w)), RanAt(s.pc, s.w))
  }

  // ----- the rewritten program -----

  /** Lines first to last are replaced by a jump to a helper, with a park of the resume label when
      the helper has to come back. */
  datatype Site = Site(first: int, last: int, helper: int)
  datatype Helper = Helper(body: seq<int>, sec: int, term: bool)
  datatype Outlined = Outlined(sites: seq<Site>, helpers: seq<Helper>)

  ghost predicate SiteOk(lines: seq<Line>, o: Outlined, s: Site) {
    && 0 <= s.first < s.last < |lines| && 0 <= s.helper < |o.helpers|
    && Moves(lines[s.first]) && Moves(lines[s.last])
    && (forall i :: s.first <= i <= s.last ==> (Moves(lines[i]) && Owned(lines, i)) || lines[i].Marker?)
    && (forall i :: s.first <= i < s.last && lines[i].Instr? ==> !lines[i].term)
    && (forall i :: s.first <= i <= s.last && lines[i].Instr? ==> lines[i].sec == o.helpers[s.helper].sec)
    && Ids(lines, s.first, s.last + 1) == o.helpers[s.helper].body && lines[s.last].term == o.helpers[s.helper].term
  }

  /** Sites are well formed and disjoint. */
  ghost predicate OutlinedOk(lines: seq<Line>, o: Outlined) {
    && (forall s :: 0 <= s < |o.sites| ==> SiteOk(lines, o, o.sites[s]))
    && (forall s, t :: 0 <= s < |o.sites| && 0 <= t < |o.sites| && s != t ==>
                      o.sites[s].last < o.sites[t].first || o.sites[t].last < o.sites[s].first)
  }

  predicate Starts(o: Outlined, i: int) {
    exists s :: 0 <= s < |o.sites| && o.sites[s].first == i
  }

  function SiteAt(o: Outlined, i: int, s: nat): (r: int)
    requires s <= |o.sites| && exists t :: s <= t < |o.sites| && o.sites[t].first == i
    ensures s <= r < |o.sites| && o.sites[r].first == i
    decreases |o.sites| - s
  {
    if o.sites[s].first == i then s else SiteAt(o, i, s + 1)
  }

  /** In the code proper, between a park and its jump, in a helper, or stopped. The resume cell
      holds a site. */
  datatype New =
    | AtLine(line: int, w: int, cell: int)
    | AtJump(site: int, w: int, cell: int)
    | InBody(helper: int, j: int, w: int, cell: int)
    | Ended(w: int)

  function LandNew(lines: seq<Line>, i: int, w: int, cell: int): New {
    if 0 <= i <= |lines| && Skip(lines, i) < |lines| then AtLine(Skip(lines, i), w, cell) else Ended(w)
  }

  function FollowNew(lines: seq<Line>, fall: New, r: (int, Next), cell: int): New {
    match r.1
    case Fall => fall
    case To(k) => LandNew(lines, k, r.0, cell)
    case Halt => Ended(r.0)
  }

  datatype Shown = Shows(e: Event) | Silent

  /** One instruction of the rewritten program; parks and jumps show nothing. */
  ghost function StepNew(lines: seq<Line>, sem: Semantics, o: Outlined, n: New): (New, Shown) {
    match n
    case AtLine(i, w, cell) =>
      if Starts(o, i) then
        var s := SiteAt(o, i, 0);
        if 0 <= o.sites[s].helper < |o.helpers| && !o.helpers[o.sites[s].helper].term then (AtJump(s, w, s), Silent)
        else (InBody(o.sites[s].helper, 0, w, cell), Silent)
      else if !(0 <= i < |lines|) || !lines[i].Instr? then (Ended(w), Silent)
      else if lines[i].movable then
        var r := sem.moved(lines[i].id, w);
        (FollowNew(lines, LandNew(lines, i + 1, r.0, cell), r, cell), Shows(Ran(lines[i].id, w)))
      else
        var r := sem.fixed(i, w);
        (FollowNew(lines, LandNew(lines, i + 1, r.0, cell), r, cell), Shows(RanAt(i, w)))
    case AtJump(s, w, cell) =>
        if 0 <= s < |o.sites| then (InBody(o.sites[s].helper, 0, w, cell), Silent) else (Ended(w), Silent)
    case InBody(h, j, w, cell) =>
      if !(0 <= h < |o.helpers|) || j < 0 then (Ended(w), Silent)
      else if j < |o.helpers[h].body| then
        var r := sem.moved(o.helpers[h].body[j], w);
        (FollowNew(lines, InBody(h, j + 1, r.0, cell), r, cell), Shows(Ran(o.helpers[h].body[j], w)))
      else if 0 <= cell < |o.sites| then (LandNew(lines, o.sites[cell].last + 1, w, cell), Silent)
      else (Ended(w), Silent)
    case Ended(w) => (n, Silent)
  }

  // ----- the correspondence -----

  /** Strictly inside a replaced range. */
  predicate Interior(o: Outlined, i: int) {
    exists s :: 0 <= s < |o.sites| && o.sites[s].first < i <= o.sites[s].last
  }

  /** In helper h at j on behalf of site k: the original stands at the same instruction of the
      replaced range, or just behind it. */
  ghost predicate InRange(lines: seq<Line>, o: Outlined, k: int, h: int, j: int, w: int, s: Orig)
    requires 0 <= k < |o.sites| && SiteOk(lines, o, o.sites[k])
  {
    var t := o.sites[k];
    && t.helper == h
    && if j < |o.helpers[h].body| then
         s.Orig? && s.w == w && t.first <= s.pc <= t.last && lines[s.pc].Instr? && |Ids(lines, t.first, s.pc)| == j
       else j == |o.helpers[h].body| && !o.helpers[h].term && s == Land(lines, t.last + 1, w)
  }

  ghost predicate ForSite(lines: seq<Line>, o: Outlined, k: int, n: New, s: Orig)
    requires OutlinedOk(lines, o) && n.InBody?
  {
    0 <= k < |o.sites| && InRange(lines, o, k, n.helper, n.j, n.w, s) && (!o.helpers[n.helper].term ==> n.cell == k)
  }

  /** The rewritten program stands where the original does; from a park to the return the resume
      cell names the site being served. */
  ghost predicate Rel(lines: seq<Line>, o: Outlined, s: Orig, n: New)
    requires OutlinedOk(lines, o)
  {
    match n
    case AtLine(i, w, _) => 0 <= i < |lines| && lines[i].Instr? && s == Orig(i, w) && !Interior(o, i)
    case AtJump(k, w, cell) =>
        0 <= k < |o.sites| && cell == k && !o.helpers[o.sites[k].helper].term && s == Orig(o.sites[k].first, w)
    case InBody(_, _, _, _) => exists k :: ForSite(lines, o, k, n, s)
    case Ended(w) => s == Stopped(w)
  }

  /** How many parks and jumps lie before the next instruction. */
  ghost function Rank(o: Outlined, n: New): nat {
    match n
    case AtLine(i, _, _) => if Starts(o, i) then 2 else 0
    case AtJump(_, _, _) => 1
    case InBody(h, j, _, _) => if 0 <= h < |o.helpers| && 0 <= j < |o.helpers[h].body| then 0 else 3
    case Ended(_) => 0
  }

  /** Entry points are outside replaced ranges, and so is the instruction they lead to. */
  lemma {:induction false} EntryOutside(lines: seq<Line>, o: Outlined, k: int)
    requires OutlinedOk(lines, o) && EntryPoint(lines, k)
    ensures !Interior(o, Skip(lines, k))
  {
    var p := Skip(lines, k);
    forall s | 0 <= s < |o.sites| ensures !(o.sites[s].first < p <= o.sites[s].last) {
      var t := o.sites[s];
      assert SiteOk(lines, o, t);
      if t.first < k <= t.last {
        assert false;
      }
    }
  }

  /** Behind a line outside every range, or behind a range, is outside again. */
  lemma {:induction false} BehindOutside(lines: seq<Line>, o: Outlined, i: int)
    requires OutlinedOk(lines, o) && 0 <= i < |lines|
    requires forall s :: 0 <= s < |o.sites| ==> !(o.sites[s].first <= i < o.sites[s].last)
    ensures !Interior(o, Skip(lines, i + 1))
  {
    var p := Skip(lines, i + 1);
    forall s | 0 <= s < |o.sites| ensures !(o.sites[s].first < p <= o.sites[s].last) {
      assert SiteOk(lines, o, o.sites[s]);
    }
  }

  lemma {:induction false} GoesTo(lines: seq<Line>, o: Outlined, k: int, w: int, cell: int)
    requires OutlinedOk(lines, o) && EntryPoint(lines, k)
    ensures Rel(lines, o, Land(lines, k, w), LandNew(lines, k, w, cell))
  {
    EntryOutside(lines, o, k);
  }

  lemma {:induction false} GoesOn(lines: seq<Line>, o: Outlined, i: int, w: int, cell: int)
    requires OutlinedOk(lines, o) && 0 <= i < |lines|
    requires forall s :: 0 <= s < |o.sites| ==> !(o.sites[s].first <= i < o.sites[s].last)
    ensures Rel(lines, o, Land(lines, i + 1, w), LandNew(lines, i + 1, w, cell))
  {
    BehindOutside(lines, o, i);
  }

  /** An instruction of the code proper. */
  lemma {:induction false} LineRel(lines: seq<Line>, sem: Semantics, o: Outlined, s: Orig, n: New)
    requires OutlinedOk(lines, o) && SemOk(lines, sem) && n.AtLine? && Rel(lines, o, s, n) && !Starts(o, n.line)
    ensures var r := StepNew(lines, sem, o, n);
            r.1 == Shows(StepOrig(lines, sem, s).1) && Rel(lines, o, StepOrig(lines, sem, s).0, r.0)
  {
    var i := n.line;
    var r := if lines[i].movable then sem.moved(lines[i].id, n.w) else sem.fixed(i, n.w);
    match r.1
    case Fall => GoesOn(lines, o, i, r.0, n.cell);
    case To(k) => GoesTo(lines, o, k, r.0, n.cell);
    case Halt =>
  }

  /** The j-th instruction of a replaced range is the j-th of the helper's body. */
  lemma {:induction false} BodyAt(lines: seq<Line>, o: Outlined, t: Site, pc: int)
    requires SiteOk(lines, o, t) && t.first <= pc <= t.last && lines[pc].Instr?
    ensures var j := |Ids(lines, t.first, pc)|;
            j < |o.helpers[t.helper].body| && o.helpers[t.helper].body[j] == lines[pc].id
                && (pc == t.last <==> j == |o.helpers[t.helper].body| - 1)
  {
    assert Moves(lines[t.last]) && Ids(lines, t.first, t.last + 1) == o.helpers[t.helper].body;
    hide SiteOk, Owned;
    IdAt(lines, t.first, pc, t.last + 1);
    if pc < t.last { IdAt(lines, pc + 1, t.last, t.last + 1); }
    hide Ids;
  }

  /** The instruction at pc among those of a range: where it is, and how many follow. */
  lemma {:induction false} IdAt(lines: seq<Line>, a: int, pc: int, c: int)
    requires 0 <= a <= pc < c <= |lines| && lines[pc].Instr?
    ensures var n, m := |Ids(lines, a, pc)|, |Ids(lines, pc + 1, c)|;
            |Ids(lines, a, c)| == n + 1 + m && Ids(lines, a, c)[n] == lines[pc].id
  {
    IdsSplit(lines, a, pc, c);
    IdsSplit(lines, pc, pc + 1, c);
    assert Ids(lines, pc, pc + 1) == Ids(lines, pc, pc) + [lines[pc].id];
    assert Ids(lines, pc + 1, pc + 1) == [];
    hide Ids;
  }

  lemma {:induction false} IdsNext(lines: seq<Line>, a: int, pc: int, q: int)
    requires 0 <= a <= pc < q <= |lines| && lines[pc].Instr? && forall k :: pc < k < q ==> !lines[k].Instr?
    ensures |Ids(lines, a, q)| == |Ids(lines, a, pc)| + 1
  {
    IdsSplit(lines, a, pc + 1, q);
    NoIds(lines, pc + 1, q);
  }

  /** Inside a replaced range, on to its next instruction. */
  lemma {:induction false} RangeStep(lines: seq<Line>, o: Outlined, t: Site, pc: int)
    requires SiteOk(lines, o, t) && t.first <= pc < t.last && lines[pc].Instr?
    ensures var q := Skip(lines, pc + 1);
            q <= t.last && lines[q].Instr? && |Ids(lines, t.first, q)| == |Ids(lines, t.first, pc)| + 1
  {
    hide Ids;
    var q := Skip(lines, pc + 1);
    assert q <= t.last;
    IdsNext(lines, t.first, pc, q);
  }

  /** An instruction of a helper. */
  lemma {:induction false} BodyRel(lines: seq<Line>, sem: Semantics, o: Outlined, s: Orig, n: New, k: int)
    requires OutlinedOk(lines, o) && SemOk(lines, sem) && n.InBody? && ForSite(lines, o, k, n, s)
    requires n.j < |o.helpers[n.helper].body|
    ensures var r := StepNew(lines, sem, o, n);
            Placed(lines, s) && s.Orig? && r.1 == Shows(StepOrig(lines, sem, s).1)
                && Rel(lines, o, StepOrig(lines, sem, s).0, r.0)
  {
    var t := o.sites[k];
    var pc := s.pc;
    BodyAt(lines, o, t, pc);
    assert Moves(lines[pc]);
    var r := sem.moved(lines[pc].id, n.w);
    var n' := InBody(n.helper, n.j + 1, r.0, n.cell);
    match r.1
    case Fall =>
      if pc < t.last {
        RangeStep(lines, o, t, pc);
        BodyAt(lines, o, t, Skip(lines, pc + 1));
      }
      assert ForSite(lines, o, k, n', Land(lines, pc + 1, r.0));
    case To(x) => GoesTo(lines, o, x, r.0, n.cell);
    case Halt =>
  }

  /** One step: a park or a jump leaves the correspondence and comes nearer to an instruction; an
      instruction is the one the original executes. */
  lemma {:induction false} StepRel(lines: seq<Line>, sem: Semantics, o: Outlined, s: Orig, n: New)
    requires OutlinedOk(lines, o) && SemOk(lines, sem) && Rel(lines, o, s, n) && !n.Ended?
    ensures var r := StepNew(lines, sem, o, n);
            if r.1.Silent? then Rel(lines, o, s, r.0) && Rank(o, r.0) < Rank(o, n)
            else
              && Placed(lines, s) && s.Orig? && r.1 == Shows(StepOrig(lines, sem, s).1)
              && Rel(lines, o, StepOrig(lines, sem, s).0, r.0)
  {
    hide OutlinedOk, SemOk, SiteOk;
    match n
    case AtLine(i, w, cell) => AtLineRel(lines, sem, o, s, n);
    case AtJump(k, w, cell) => AtJumpRel(lines, sem, o, s, n);
    case InBody(h, j, w, cell) => InBodyRel(lines, sem, o, s, n);
  }

  lemma {:induction false} AtLineRel(lines: seq<Line>, sem: Semantics, o: Outlined, s: Orig, n: New)
    requires OutlinedOk(lines, o) && SemOk(lines, sem) && Rel(lines, o, s, n) && n.AtLine?
    ensures var r := StepNew(lines, sem, o, n);
            if r.1.Silent? then Rel(lines, o, s, r.0) && Rank(o, r.0) < Rank(o, n)
            else
              && Placed(lines, s) && s.Orig? && r.1 == Shows(StepOrig(lines, sem, s).1)
              && Rel(lines, o, StepOrig(lines, sem, s).0, r.0)
  {
    if Starts(o, n.line) {
      SiteEntered(lines, o, SiteAt(o, n.line, 0), n.w, n.cell);
      hide OutlinedOk, SemOk, SiteOk;
    } else {
      LineRel(lines, sem, o, s, n);
      hide OutlinedOk, SemOk, SiteOk;
    }
  }

  lemma {:induction false} AtJumpRel(lines: seq<Line>, sem: Semantics, o: Outlined, s: Orig, n: New)
    requires OutlinedOk(lines, o) && SemOk(lines, sem) && Rel(lines, o, s, n) && n.AtJump?
    ensures var r := StepNew(lines, sem, o, n); r.1.Silent? && Rel(lines, o, s, r.0) && Rank(o, r.0) < Rank(o, n)
  {
    SiteEntered(lines, o, n.site, n.w, n.cell);
    hide SemOk, SiteOk;
    assert ForSite(lines, o, n.site, InBody(o.sites[n.site].helper, 0, n.w, n.cell), s);
  }

  lemma {:induction false} InBodyRel(lines: seq<Line>, sem: Semantics, o: Outlined, s: Orig, n: New)
    requires OutlinedOk(lines, o) && SemOk(lines, sem) && Rel(lines, o, s, n) && n.InBody?
    ensures var r := StepNew(lines, sem, o, n);
            if r.1.Silent? then Rel(lines, o, s, r.0) && Rank(o, r.0) < Rank(o, n)
            else
              && Placed(lines, s) && s.Orig? && r.1 == Shows(StepOrig(lines, sem, s).1)
              && Rel(lines, o, StepOrig(lines, sem, s).0, r.0)
  {
    var k :| ForSite(lines, o, k, n, s);
    assert SiteOk(lines, o, o.sites[k]);
    if n.j < |o.helpers[n.helper].body| {
      BodyRel(lines, sem, o, s, n, k);
    } else {
      RangeLeft(lines, o, k, n.w, n.cell);
    }
  }

  lemma {:induction false} SiteEntered(lines: seq<Line>, o: Outlined, k: int, w: int, cell: int)
    requires OutlinedOk(lines, o) && 0 <= k < |o.sites|
    ensures SiteOk(lines, o, o.sites[k]) && |o.helpers[o.sites[k].helper].body| > 0
    ensures !o.helpers[o.sites[k].helper].term ==> cell == k ==>
              ForSite(lines, o, k, InBody(o.sites[k].helper, 0, w, cell), Orig(o.sites[k].first, w))
    ensures o.helpers[o.sites[k].helper].term ==>
              ForSite(lines, o, k, InBody(o.sites[k].helper, 0, w, cell), Orig(o.sites[k].first, w))
  {
    assert SiteOk(lines, o, o.sites[k]);
    BodyAt(lines, o, o.sites[k], o.sites[k].first);
  }

  lemma {:induction false} RangeLeft(lines: seq<Line>, o: Outlined, k: int, w: int, cell: int)
    requires OutlinedOk(lines, o) && 0 <= k < |o.sites|
    ensures o.sites[k].last < |lines|
    ensures Rel(lines, o, Land(lines, o.sites[k].last + 1, w), LandNew(lines, o.sites[k].last + 1, w, cell))
  {
    assert SiteOk(lines, o, o.sites[k]);
    GoesOn(lines, o, o.sites[k].last, w, cell);
  }

  // ----- runs -----

  /** The state and the instructions executed after at most m steps. */
  function RunOrig(lines: seq<Line>, sem: Semantics, s: Orig, m: nat): (Orig, seq<Event>)
    requires Placed(lines, s)
    decreases m
  {
    if m == 0 || s.Stopped? then (s, [])
    else
      var r := StepOrig(lines, sem, s);
      var q := RunOrig(lines, sem, r.0, m - 1);
      (q.0, [r.1] + q.1)
  }

  ghost function RunNew(lines: seq<Line>, sem: Semantics, o: Outlined, n: New, k: nat): (New, seq<Event>)
    decreases k
  {
    if k == 0 || n.Ended? then (n, [])
    else
      var r := StepNew(lines, sem, o, n);
      var q := RunNew(lines, sem, o, r.0, k - 1);
      (q.0, if r.1.Silent? then q.1 else [r.1.e] + q.1)
  }

  ghost predicate SameRun(lines: seq<Line>, sem: Semantics, o: Outlined, s: Orig, n: New, m: nat, k: nat)
    requires OutlinedOk(lines, o) && Placed(lines, s)
  {
    var a, b := RunOrig(lines, sem, s, m), RunNew(lines, sem, o, n, k);
    a.1 == b.1 && Rel(lines, o, a.0, b.0)
  }

  lemma {:induction false} RelPlaced(lines: seq<Line>, o: Outlined, s: Orig, n: New)
    requires OutlinedOk(lines, o) && Rel(lines, o, s, n)
    ensures Placed(lines, s)
  {
    match n
    case AtJump(k, _, _) => assert SiteOk(lines, o, o.sites[k]);
    case InBody(h, j, w, _) => var k :| ForSite(lines, o, k, n, s);
    case _ =>
  }

  lemma {:induction false} EndedStops(lines: seq<Line>, o: Outlined, s: Orig, n: New)
    requires OutlinedOk(lines, o) && Rel(lines, o, s, n) && n.Ended?
    ensures s.Stopped?
  {
  }

  /** Whatever the rewritten program has executed, the original has, in as many steps or fewer. */
  lemma {:induction false} NothingNew(lines: seq<Line>, sem: Semantics, o: Outlined, s: Orig, n: New, k: nat)
    returns (m: nat)
    requires OutlinedOk(lines, o) && SemOk(lines, sem) && Rel(lines, o, s, n)
    ensures Placed(lines, s) && m <= k && SameRun(lines, sem, o, s, n, m, k)
    decreases k
  {
    hide OutlinedOk, SemOk, Rel, StepNew, StepOrig;
    RelPlaced(lines, o, s, n);
    if k == 0 || n.Ended? { return 0; }
    StepRel(lines, sem, o, s, n);
    var r := StepNew(lines, sem, o, n);
    if r.1.Silent? {
      m := NothingNew(lines, sem, o, s, r.0, k - 1);
    } else {
      var x := NothingNew(lines, sem, o, StepOrig(lines, sem, s).0, r.0, k - 1);
      m := x + 1;
    }
  }

  /** Whatever the original executes, the rewritten program does, after some parks and jumps. */
  lemma {:induction false} NothingLost(lines: seq<Line>, sem: Semantics, o: Outlined, s: Orig, n: New, m: nat)
    returns (k: nat)
    requires OutlinedOk(lines, o) && SemOk(lines, sem) && Rel(lines, o, s, n)
    ensures Placed(lines, s) && SameRun(lines, sem, o, s, n, m, k)
    decreases m, Rank(o, n)
  {
    hide OutlinedOk, SemOk, Rel, StepNew, StepOrig, Rank;
    RelPlaced(lines, o, s, n);
    if n.Ended? { EndedStops(lines, o, s, n); }
    if m == 0 || n.Ended? { return 0; }
    StepRel(lines, sem, o, s, n);
    var r := StepNew(lines, sem, o, n);
    if r.1.Silent? {
      var x := NothingLost(lines, sem, o, s, r.0, m);
      k := x + 1;
    } else {
      var x := NothingLost(lines, sem, o, StepOrig(lines, sem, s).0, r.0, m - 1);
      k := x + 1;
    }
  }

  /** Both programs entered at an entry point. */
  lemma {:induction false} Entered(lines: seq<Line>, o: Outlined, i: int, w: int, cell: int)
    requires OutlinedOk(lines, o) && EntryPoint(lines, i)
    ensures Rel(lines, o, Land(lines, i, w), LandNew(lines, i, w, cell))
  {
    GoesTo(lines, o, i, w, cell);
  }

  /** From any entry point, whatever the resume cell holds, each program runs what the other runs. */
  lemma {:induction false} EntryRuns(lines: seq<Line>, sem: Semantics, o: Outlined, i: int, w: int, cell: int, k: nat)
    returns (m: nat, j: nat)
    requires OutlinedOk(lines, o) && SemOk(lines, sem) && EntryPoint(lines, i)
    ensures Placed(lines, Land(lines, i, w))
    ensures m <= k && SameRun(lines, sem, o, Land(lines, i, w), LandNew(lines, i, w, cell), m, k)
    ensures SameRun(lines, sem, o, Land(lines, i, w), LandNew(lines, i, w, cell), k, j)
  {
    hide *;
    Entered(lines, o, i, w, cell);
    m := NothingNew(lines, sem, o, Land(lines, i, w), LandNew(lines, i, w, cell), k);
    j := NothingLost(lines, sem, o, Land(lines, i, w), LandNew(lines, i, w, cell), k);
  }
}
