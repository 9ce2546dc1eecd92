/** Finding what to outline (host/dmacc/outline.go): runs of movable code, repeats inside them, and
    a greedy choice that never overlaps and never crosses sections. */
module Outlining {
  import opened Outliner

  // ----- runs -----

  /** A straight-line stretch: the lines of its instructions, in order, with only markers between. */
  datatype Run = Run(sec: int, at: seq<int>, term: bool)

  /** Lines i and j hold instructions with only markers between them. */
  predicate Adjacent(lines: seq<Line>, i: int, j: int) {
    0 <= i < j < |lines| && lines[i].Instr? && lines[j].Instr? && forall k :: i < k < j ==> lines[k].Marker?
  }

  /** Sections change only at directives. */
  ghost predicate Sections(lines: seq<Line>) {
    forall i, j :: Adjacent(lines, i, j) ==> lines[i].sec == lines[j].sec
  }

  /** A movable line of owned code. */
  ghost predicate Good(lines: seq<Line>, i: int) {
    0 <= i < |lines| && Moves(lines[i]) && Owned(lines, i)
  }

  ghost predicate Member(lines: seq<Line>, i: int, sec: int) {
    Good(lines, i) && lines[i].sec == sec
  }

  /** Instruction m of a stretch falls through to the next. */
  predicate Linked(lines: seq<Line>, at: seq<int>, m: int)
    requires 0 <= m < |at| - 1
  {
    Adjacent(lines, at[m], at[m + 1]) && !lines[at[m]].term
  }

  ghost predicate ChainOk(lines: seq<Line>, at: seq<int>, sec: int) {
    && (forall m :: 0 <= m < |at| ==> Member(lines, at[m], sec))
    && (forall m :: 0 <= m < |at| - 1 ==> Linked(lines, at, m))
  }

  ghost predicate RunOk(lines: seq<Line>, r: Run) {
    |r.at| >= 2 && ChainOk(lines, r.at, r.sec) && r.term == lines[Final(r)].term
  }

  function Final(r: Run): int
    requires |r.at| >= 2
  {
    r.at[|r.at| - 1]
  }

  ghost predicate RunsOk(lines: seq<Line>, runs: seq<Run>) {
    && (forall x :: 0 <= x < |runs| ==> RunOk(lines, runs[x]))
    && (forall x, y :: 0 <= x < y < |runs| ==> Final(runs[x]) < runs[y].at[0])
  }

  /** The scan's variables: runs so far, the stretch being collected and its section, the line that
      would extend it, and whether the code belongs to an eligible function and block. */
  datatype Scan = Scan(runs: seq<Run>, cur: seq<int>, sec: int, next: int, inFunc: bool, owned: bool)

  ghost predicate CurOk(lines: seq<Line>, s: Scan, i: int) {
    && ChainOk(lines, s.cur, s.sec)
    && (s.cur != [] ==>
          var z := s.cur[|s.cur| - 1];
          !lines[z].term && z < s.next <= i <= |lines| && forall k :: z < k < s.next ==> lines[k].Marker?)
  }

  /** Two movable lines of owned code, the first falling through to the second. */
  ghost predicate Pair(lines: seq<Line>, i: int, j: int) {
    Adjacent(lines, i, j) && Good(lines, i) && Good(lines, j) && !lines[i].term
  }

  /** They are neighbours in a stretch. */
  ghost predicate Together(at: seq<int>, i: int, j: int) {
    exists m :: 0 <= m < |at| - 1 && at[m] == i && at[m + 1] == j
  }

  ghost predicate InRuns(runs: seq<Run>, i: int, j: int) {
    exists x :: 0 <= x < |runs| && Together(runs[x].at, i, j)
  }

  /** No pair before line n is missed. */
  ghost predicate Complete(lines: seq<Line>, runs: seq<Run>, cur: seq<int>, n: int) {
    forall i, j :: Pair(lines, i, j) && j < n ==> InRuns(runs, i, j) || Together(cur, i, j)
  }

  /** The last line that could fall through to line n, with only markers between. */
  ghost predicate Open(lines: seq<Line>, z: int, n: int) {
    Good(lines, z) && z < n <= |lines| && !lines[z].term && forall k :: z < k < n ==> lines[k].Marker?
  }

  ghost predicate Pending(lines: seq<Line>, s: Scan, n: int) {
    forall z :: Open(lines, z, n) ==> s.cur != [] && s.cur[|s.cur| - 1] == z && s.next == n
  }

  /** After the lines before i. */
  ghost predicate ScanOk(lines: seq<Line>, s: Scan, i: int) {
    && RunsOk(lines, s.runs) && CurOk(lines, s, i)
    && (forall x :: 0 <= x < |s.runs| ==> Final(s.runs[x]) < i && (s.cur != [] ==> Final(s.runs[x]) < s.cur[0]))
  }

  /** And no line too many or too few was collected. */
  ghost predicate ScanExact(lines: seq<Line>, s: Scan, i: int) {
    && (s.inFunc <==> InFunction(lines, i)) && (s.owned <==> Owned(lines, i))
    && Complete(lines, s.runs, s.cur, i) && Pending(lines, s, i)
  }

  /** Who owns the code behind a line. */
  lemma {:induction false} OwnedNext(lines: seq<Line>, i: int)
    requires 0 <= i < |lines|
    ensures lines[i].FnLabel? ==>
              (InFunction(lines, i + 1) <==> lines[i].eligible) && (Owned(lines, i + 1) <==> lines[i].eligible)
    ensures Heads(lines[i]) && !lines[i].FnLabel? ==> !InFunction(lines, i + 1) && !Owned(lines, i + 1)
    ensures lines[i].BlockLabel? ==>
              (InFunction(lines, i + 1) <==> InFunction(lines, i)) &&
              (Owned(lines, i + 1) <==> InFunction(lines, i) && !lines[i].hot)
    ensures !Heads(lines[i]) && !lines[i].BlockLabel? ==>
              (InFunction(lines, i + 1) <==> InFunction(lines, i)) && (Owned(lines, i + 1) <==> Owned(lines, i))
  {
    forall k ensures Within(lines, k, i + 1) <==>
                     (k != i && Within(lines, k, i) && !Heads(lines[i])) ||
                     (k == i && lines[i].FnLabel? && lines[i].eligible) { WithinNext(lines, k, i); }
    forall k, b ensures BlockOf(lines, k, b, i + 1) <==>
                        (b != i && BlockOf(lines, k, b, i) && !lines[i].BlockLabel?) ||
                        (b == i && 0 <= k < i && lines[i].BlockLabel?) { BlockNext(lines, k, b, i); }
    forall k | Within(lines, k, i) ensures 0 <= k < i {}
    hide Within, BlockOf;
    if lines[i].FnLabel? {
      if lines[i].eligible { assert Within(lines, i, i + 1); }
    } else if lines[i].BlockLabel? {
      if InFunction(lines, i) {
        var k :| Within(lines, k, i);
        assert Within(lines, k, i + 1) && BlockOf(lines, k, i, i + 1);
      }
      if InFunction(lines, i + 1) {
        var k :| Within(lines, k, i + 1);
        assert Within(lines, k, i);
      }
      if Owned(lines, i + 1) {
        var k :| Within(lines, k, i + 1) && forall b :: BlockOf(lines, k, b, i + 1) ==> !lines[b].hot;
        assert Within(lines, k, i) && BlockOf(lines, k, i, i + 1);
      }
    } else if !Heads(lines[i]) {
      SameOwner(lines, i);
    }
  }

  lemma {:induction false} WithinNext(lines: seq<Line>, k: int, i: int)
    requires 0 <= i < |lines|
    ensures Within(lines, k, i + 1) <==>
            (k != i && Within(lines, k, i) && !Heads(lines[i])) || (k == i && lines[i].FnLabel? && lines[i].eligible)
  {
  }

  lemma {:induction false} BlockNext(lines: seq<Line>, k: int, b: int, i: int)
    requires 0 <= i < |lines|
    ensures BlockOf(lines, k, b, i + 1) <==>
            (b != i && BlockOf(lines, k, b, i) && !lines[i].BlockLabel?) ||
            (b == i && 0 <= k < i && lines[i].BlockLabel?)
  {
  }

  lemma {:induction false} SameOwner(lines: seq<Line>, i: int)
    requires 0 <= i < |lines| && !Heads(lines[i]) && !lines[i].BlockLabel?
    ensures (InFunction(lines, i + 1) <==> InFunction(lines, i)) && (Owned(lines, i + 1) <==> Owned(lines, i))
  {
    forall k ensures Within(lines, k, i + 1) <==> Within(lines, k, i) { WithinNext(lines, k, i); }
    forall k, b ensures BlockOf(lines, k, b, i + 1) <==> BlockOf(lines, k, b, i) { BlockNext(lines, k, b, i); }
    hide Within, BlockOf;
    if InFunction(lines, i) {
      var k :| Within(lines, k, i);
      assert Within(lines, k, i + 1);
    }
    if InFunction(lines, i + 1) {
      var k :| Within(lines, k, i + 1);
      assert Within(lines, k, i);
    }
    if Owned(lines, i) {
      var k :| Within(lines, k, i) && forall b :: BlockOf(lines, k, b, i) ==> !lines[b].hot;
      assert Within(lines, k, i + 1);
    }
    if Owned(lines, i + 1) {
      var k :| Within(lines, k, i + 1) && forall b :: BlockOf(lines, k, b, i + 1) ==> !lines[b].hot;
      assert Within(lines, k, i);
    }
  }

  lemma OpenMarks(lines: seq<Line>, z: int, n: int, k: int)
    requires Open(lines, z, n) && z < k < n
    ensures lines[k].Marker?
  {
  }

  /** Nothing falls through a line that is no marker. */
  lemma {:induction false} NothingOpen(lines: seq<Line>, s: Scan, i: int)
    requires 0 <= i < |lines| && !lines[i].Marker? && (Good(lines, i) ==> lines[i].term)
    ensures Pending(lines, s, i + 1)
  {
    var n := i + 1;
    forall z ensures !Open(lines, z, n) {
      if z < i && Open(lines, z, n) {
        OpenMarks(lines, z, n, i);
        assert false;
      }
    }
  }

  /** A line that is no movable line of owned code completes no pair. */
  lemma {:induction false} NoPair(lines: seq<Line>, runs: seq<Run>, cur: seq<int>, i: int)
    requires 0 <= i < |lines| && !Good(lines, i) && Complete(lines, runs, cur, i)
    ensures Complete(lines, runs, cur, i + 1)
  {
  }

  lemma {:induction false} FlushComplete(lines: seq<Line>, s: Scan, term: bool, n: int)
    requires Complete(lines, s.runs, s.cur, n)
    ensures Complete(lines, Flush(s, term).runs, [], n)
  {
    hide Pair;
    var f := Flush(s, term);
    forall i, j | Pair(lines, i, j) && j < n ensures InRuns(f.runs, i, j) {
      if InRuns(s.runs, i, j) {
        var x :| 0 <= x < |s.runs| && Together(s.runs[x].at, i, j);
        assert f.runs[x] == s.runs[x];
      } else {
        assert Together(s.cur, i, j);
        assert f.runs[|s.runs|].at == s.cur;
      }
    }
  }

  /** Ends the current stretch; one instruction alone is not a run. */
  function Flush(s: Scan, term: bool): Scan {
    s.(runs := if |s.cur| >= 2 then s.runs + [Run(s.sec, s.cur, term)] else s.runs, cur := [])
  }

  lemma {:induction false} ChainFirst(lines: seq<Line>, at: seq<int>, sec: int, m: nat)
    requires ChainOk(lines, at, sec) && m < |at|
    ensures at[0] <= at[m]
    decreases m
  {
    if m > 0 {
      ChainFirst(lines, at, sec, m - 1);
      assert Linked(lines, at, m - 1);
    }
  }

  lemma {:induction false} FlushOk(lines: seq<Line>, s: Scan, term: bool, i: int)
    requires RunsOk(lines, s.runs) && ChainOk(lines, s.cur, s.sec)
    requires s.cur != [] ==> term == lines[s.cur[|s.cur| - 1]].term && s.cur[|s.cur| - 1] < i
    requires forall x :: 0 <= x < |s.runs| ==> Final(s.runs[x]) < i && (s.cur != [] ==> Final(s.runs[x]) < s.cur[0])
    ensures ScanOk(lines, Flush(s, term), i)
  {
    hide ChainOk;
    var f := Flush(s, term);
    assert ChainOk(lines, f.cur, s.sec) by { EmptyChain(lines, s.sec); }
    if |s.cur| >= 2 { assert RunOk(lines, Run(s.sec, s.cur, term)); }
  }

  lemma EmptyChain(lines: seq<Line>, sec: int)
    ensures ChainOk(lines, [], sec)
  {
  }

  lemma {:induction false} ChainMore(lines: seq<Line>, at: seq<int>, sec: int, i: int)
    requires ChainOk(lines, at, sec) && Member(lines, i, sec)
    requires at != [] ==> Adjacent(lines, at[|at| - 1], i) && !lines[at[|at| - 1]].term
    ensures ChainOk(lines, at + [i], sec)
  {
    var b := at + [i];
    forall m | 0 <= m < |b| - 1 ensures Linked(lines, b, m) {
      if m < |at| - 1 { assert Linked(lines, at, m); }
    }
  }

  /** A movable instruction of owned code extends the stretch, or starts one. */
  method Extend(lines: seq<Line>, s: Scan, i: int) returns (r: Scan)
    requires Sections(lines) && ScanOk(lines, s, i) && ScanExact(lines, s, i) && Good(lines, i)
    ensures ScanOk(lines, r, i + 1) && ScanExact(lines, r, i + 1)
  {
    hide RunsOk, ChainOk, Good, Owned, InFunction, Complete, Pending;
    GoodLine(lines, i);
    OwnedNext(lines, i);
    r := s;
    if r.cur != [] && i != r.next {
      LastMember(lines, r.cur, r.sec);
      FlushOk(lines, r, false, i);
      FlushComplete(lines, r, false, i);
      r := Flush(r, false);
    }
    EmptyChain(lines, lines[i].sec);
    if r.cur != [] {
      LastMember(lines, r.cur, r.sec);
      assert Adjacent(lines, r.cur[|r.cur| - 1], i);
    }
    ChainMore(lines, r.cur, lines[i].sec, i);
    Completes(lines, s, r, i);
    r := r.(sec := lines[i].sec, cur := r.cur + [i], next := i + 1);
    OnlyOpen(lines, r, i);
    if lines[i].term {
      FlushOk(lines, r, true, i + 1);
      FlushComplete(lines, r, true, i + 1);
      NothingOpen(lines, Flush(r, true), i);
      r := Flush(r, true);
    }
  }

  lemma GoodLine(lines: seq<Line>, i: int)
    requires Good(lines, i)
    ensures 0 <= i < |lines| && Moves(lines[i]) && Owned(lines, i)
  {
  }

  /** The only line a pair with line i can begin with is the last of the stretch. */
  lemma {:induction false} Completes(lines: seq<Line>, s: Scan, r: Scan, i: int)
    requires Pending(lines, s, i) && Complete(lines, r.runs, r.cur, i) && 0 <= i < |lines|
    requires s.cur != [] && s.next == i ==> r.cur == s.cur
    ensures Complete(lines, r.runs, r.cur + [i], i + 1)
  {
    hide Good;
    var c := r.cur + [i];
    forall a, b | Pair(lines, a, b) && b < i + 1 ensures InRuns(r.runs, a, b) || Together(c, a, b) {
      if b < i {
        if Together(r.cur, a, b) {
          var m :| 0 <= m < |r.cur| - 1 && r.cur[m] == a && r.cur[m + 1] == b;
          assert c[m] == a && c[m + 1] == b;
        }
      } else {
        assert Open(lines, a, i);
        assert c[|c| - 2] == a && c[|c| - 1] == i;
      }
    }
  }

  lemma {:induction false} OnlyOpen(lines: seq<Line>, r: Scan, i: int)
    requires Good(lines, i) && r.cur != [] && r.cur[|r.cur| - 1] == i && r.next == i + 1
    ensures Pending(lines, r, i + 1)
  {
    var n := i + 1;
    forall z | Open(lines, z, n) ensures z == i {
      if z < i {
        OpenMarks(lines, z, n, i);
        assert false;
      }
    }
  }

  lemma LastMember(lines: seq<Line>, at: seq<int>, sec: int)
    requires ChainOk(lines, at, sec) && at != []
    ensures Member(lines, at[|at| - 1], sec) && 0 <= at[|at| - 1] < |lines| && Moves(lines[at[|at| - 1]])
  {
    assert Member(lines, at[|at| - 1], sec);
  }

  /** One line of the program. */
  method ScanLine(lines: seq<Line>, s: Scan, i: int) returns (r: Scan)
    requires Sections(lines) && ScanOk(lines, s, i) && ScanExact(lines, s, i) && 0 <= i < |lines|
    ensures ScanOk(lines, r, i + 1) && ScanExact(lines, r, i + 1)
  {
    hide RunsOk, ChainOk, Owned, InFunction, Complete, Pending, Good;
    OwnedNext(lines, i);
    var l := lines[i];
    GoodIs(lines, i);
    if l.Instr? && s.owned && l.movable {
      r := Extend(lines, s, i);
      return;
    }
    NoPair(lines, s.runs, s.cur, i);
    if l.Marker? {
      PastMarker(lines, s, i);
      r := if i == s.next then s.(next := i + 1) else s;
    } else if l.Blank? {
      NothingOpen(lines, s, i);
      r := s;
    } else {
      if s.cur != [] { LastMember(lines, s.cur, s.sec); }
      FlushOk(lines, s, false, i);
      FlushComplete(lines, s, false, i + 1);
      r := Flush(s, false);
      if l.FnLabel? {
        r := r.(inFunc := l.eligible, owned := l.eligible);
      } else if l.BlockLabel? {
        r := r.(owned := r.inFunc && !l.hot);
      } else if l.SysLabel? || l.Directive? || l.Comment? {
        r := r.(inFunc := false, owned := false);
      }
      NothingOpen(lines, r, i);
    }
  }

  lemma GoodIs(lines: seq<Line>, i: int)
    requires 0 <= i < |lines|
    ensures Good(lines, i) <==> lines[i].Instr? && lines[i].movable && Owned(lines, i)
  {
  }

  lemma {:induction false} PastMarker(lines: seq<Line>, s: Scan, i: int)
    requires 0 <= i < |lines| && lines[i].Marker? && Pending(lines, s, i)
    ensures Pending(lines, if i == s.next then s.(next := i + 1) else s, i + 1)
  {
    hide Owned;
    var r := if i == s.next then s.(next := i + 1) else s;
    var n := i + 1;
    forall z | Open(lines, z, n) ensures r.cur != [] && r.cur[|r.cur| - 1] == z && r.next == n {
      assert z != i;
      assert Open(lines, z, i);
    }
  }

  /** Collects the maximal movable stretches of the eligible functions: every line of a run is
      movable and owned, and two such lines that follow each other are neighbours in a run. */
  method Runs(lines: seq<Line>) returns (runs: seq<Run>)
    requires Sections(lines)
    ensures RunsOk(lines, runs)
    ensures forall i, j :: Pair(lines, i, j) ==> InRuns(runs, i, j)
  {
    hide RunsOk, ChainOk, Complete, Pending;
    var s := Scan([], [], 0, -1, false, false);
    ScanStart(lines);
    for i := 0 to |lines|
      invariant ScanOk(lines, s, i) && ScanExact(lines, s, i)
    {
      s := ScanLine(lines, s, i);
    }
    if s.cur != [] { LastMember(lines, s.cur, s.sec); }
    FlushOk(lines, s, false, |lines|);
    FlushComplete(lines, s, false, |lines|);
    runs := Flush(s, false).runs;
    AllComplete(lines, runs);
  }

  /** Code outside eligible functions is left alone, however often it repeats. */
  lemma {:induction false} NobodysCode(lines: seq<Line>, runs: seq<Run>)
    requires RunsOk(lines, runs) && forall k :: 0 <= k < |lines| ==> !(lines[k].FnLabel? && lines[k].eligible)
    ensures runs == []
  {
    if runs != [] {
      FirstOwned(lines, runs);
      assert false;
    }
  }

  lemma FirstOwned(lines: seq<Line>, runs: seq<Run>)
    requires RunsOk(lines, runs) && runs != []
    ensures exists i, k :: Within(lines, k, i)
  {
    assert RunOk(lines, runs[0]) && Member(lines, runs[0].at[0], runs[0].sec);
    assert Owned(lines, runs[0].at[0]);
  }

  lemma {:induction false} ScanStart(lines: seq<Line>)
    ensures ScanOk(lines, Scan([], [], 0, -1, false, false), 0)
    ensures ScanExact(lines, Scan([], [], 0, -1, false, false), 0)
  {
  }

  lemma {:induction false} AllComplete(lines: seq<Line>, runs: seq<Run>)
    requires Complete(lines, runs, [], |lines|)
    ensures forall i, j :: Pair(lines, i, j) ==> InRuns(runs, i, j)
  {
    hide Good;
  }

  // ----- windows of a run -----

  /** The instruction texts of k members of a run. */
  function Texts(lines: seq<Line>, at: seq<int>, m: int, k: nat): (r: seq<int>)
    requires 0 <= m && m + k <= |at| && forall x :: 0 <= x < |at| ==> 0 <= at[x] < |lines| && lines[at[x]].Instr?
    ensures |r| == k
    decreases k
  {
    if k == 0 then [] else Texts(lines, at, m, k - 1) + [lines[at[m + k - 1]].id]
  }

  ghost predicate RangeOk(lines: seq<Line>, a: int, b: int, sec: int) {
    && 0 <= a <= b < |lines| && Member(lines, a, sec) && Member(lines, b, sec)
    && (forall i :: a <= i <= b ==> lines[i].Marker? || Member(lines, i, sec))
    && (forall i :: a <= i < b && lines[i].Instr? ==> !lines[i].term)
  }

  lemma {:induction false} ChainMembers(lines: seq<Line>, at: seq<int>, sec: int)
    requires ChainOk(lines, at, sec)
    ensures forall x :: 0 <= x < |at| ==> 0 <= at[x] < |lines| && lines[at[x]].Instr?
  {
    forall x | 0 <= x < |at| ensures 0 <= at[x] < |lines| && lines[at[x]].Instr? { assert Member(lines, at[x], sec); }
  }

  /** k consecutive members are one range of lines whose instructions are theirs. */
  lemma {:induction false} WindowRange(lines: seq<Line>, at: seq<int>, sec: int, m: nat, k: nat)
    requires ChainOk(lines, at, sec) && k >= 1 && m + k <= |at|
    requires forall x :: 0 <= x < |at| ==> 0 <= at[x] < |lines| && lines[at[x]].Instr?
    ensures RangeOk(lines, at[m], at[m + k - 1], sec) && Ids(lines, at[m], at[m + k - 1] + 1) == Texts(lines, at, m, k)
    ensures k > 1 ==> at[m] < at[m + k - 1]
    decreases k
  {
    assert Member(lines, at[m + k - 1], sec);
    var a, b := at[m], at[m + k - 1];
    hide Good;
    if k == 1 {
      assert Ids(lines, a, a + 1) == Ids(lines, a, a) + [lines[a].id];
      assert Texts(lines, at, m, 1) == Texts(lines, at, m, 0) + [lines[a].id];
    } else {
      WindowRange(lines, at, sec, m, k - 1);
      var c := at[m + k - 2];
      assert Linked(lines, at, m + k - 2);
      RangeMore(lines, a, c, b, sec);
      hide RangeOk, ChainOk;
      NoIds(lines, c + 1, b);
      IdsSplit(lines, a, c + 1, b);
      assert Ids(lines, a, b + 1) == Ids(lines, a, b) + [lines[b].id];
    }
  }

  lemma {:induction false} RangeMore(lines: seq<Line>, a: int, c: int, b: int, sec: int)
    requires RangeOk(lines, a, c, sec) && Adjacent(lines, c, b) && !lines[c].term && Member(lines, b, sec)
    ensures RangeOk(lines, a, b, sec)
  {
    hide Member;
    forall i | a <= i <= b ensures lines[i].Marker? || Member(lines, i, sec) { }
  }

  // ----- slots -----

  /** Member m of a run. */
  datatype Slot = Slot(run: int, m: int)

  predicate SlotOk(runs: seq<Run>, s: Slot) {
    0 <= s.run < |runs| && 0 <= s.m < |runs[s.run].at|
  }

  /** All members of all runs, in order. */
  predicate Consecutive(runs: seq<Run>, s: Slot, t: Slot) {
    SlotOk(runs, s) && SlotOk(runs, t) && ((t.run == s.run && t.m == s.m + 1) || (t.run > s.run && t.m == 0))
  }

  predicate SlotsOk(runs: seq<Run>, slots: seq<Slot>) {
    && (forall p :: 0 <= p < |slots| ==> SlotOk(runs, slots[p]))
    && (forall p :: 0 <= p < |slots| - 1 ==> Consecutive(runs, slots[p], slots[p + 1]))
  }

  /** Every member of the first n runs has its slot. */
  ghost predicate Flattened(runs: seq<Run>, slots: seq<Slot>, n: int) {
    forall r, m :: SlotOk(runs, Slot(r, m)) && r < n ==> Slot(r, m) in slots
  }

  /** Flattens the runs into one array. */
  method Flatten(runs: seq<Run>) returns (slots: seq<Slot>)
    requires forall r :: 0 <= r < |runs| ==> |runs[r].at| > 0
    ensures SlotsOk(runs, slots) && Flattened(runs, slots, |runs|)
  {
    slots := [];
    for r := 0 to |runs|
      invariant SlotsOk(runs, slots) && (slots != [] ==> slots[|slots| - 1].run < r) && Flattened(runs, slots, r)
    {
      ghost var was := slots;
      var n := |slots|;
      for m := 0 to |runs[r].at|
        invariant SlotsOk(runs, slots) && |slots| == n + m && (m == 0 && n > 0 ==> slots[n - 1].run < r)
        invariant m > 0 ==> slots[|slots| - 1] == Slot(r, m - 1)
        invariant was <= slots && forall j :: 0 <= j < m ==> Slot(r, j) in slots
      {
        slots := slots + [Slot(r, m)];
      }
      forall q, m | SlotOk(runs, Slot(q, m)) && q < r + 1 ensures Slot(q, m) in slots {
        assert q < r ==> Slot(q, m) in was;
      }
    }
  }

  function LineOf(runs: seq<Run>, s: Slot): int
    requires SlotOk(runs, s)
  {
    runs[s.run].at[s.m]
  }

  /** k slots from p, all of one run. */
  predicate Window(slots: seq<Slot>, p: int, k: nat) {
    0 <= p && k >= 1 && p + k <= |slots| && slots[p + k - 1].run == slots[p].run
  }

  lemma {:induction false} RunGrows(runs: seq<Run>, slots: seq<Slot>, p: int, q: int)
    requires SlotsOk(runs, slots) && 0 <= p <= q < |slots|
    ensures slots[p].run <= slots[q].run && (slots[p].run == slots[q].run ==> slots[q].m == slots[p].m + q - p)
    decreases q
  {
    if p < q {
      RunGrows(runs, slots, p, q - 1);
      assert Consecutive(runs, slots[q - 1], slots[q - 1 + 1]);
    }
  }

  /** Later slots are later lines. */
  lemma {:induction false} LinesGrow(lines: seq<Line>, runs: seq<Run>, slots: seq<Slot>, p: int, q: int)
    requires RunsOk(lines, runs) && SlotsOk(runs, slots) && 0 <= p < q < |slots|
    ensures LineOf(runs, slots[p]) < LineOf(runs, slots[q])
  {
    RunGrows(runs, slots, p, q);
    var s, t := slots[p], slots[q];
    assert RunOk(lines, runs[s.run]) && RunOk(lines, runs[t.run]);
    if s.run == t.run {
      ChainMembers(lines, runs[s.run].at, runs[s.run].sec);
      WindowRange(lines, runs[s.run].at, runs[s.run].sec, s.m, t.m - s.m + 1);
    } else {
      ChainFirst(lines, runs[t.run].at, runs[t.run].sec, t.m);
      ChainMembers(lines, runs[s.run].at, runs[s.run].sec);
      WindowRange(lines, runs[s.run].at, runs[s.run].sec, s.m, |runs[s.run].at| - s.m);
    }
  }

  // ----- the flattened program -----

  /** The flattened program. */
  datatype Flat = Flat(lines: seq<Line>, runs: seq<Run>, slots: seq<Slot>)

  /** Equal texts are equal instructions. */
  ghost predicate TextDecides(lines: seq<Line>) {
    forall i, j :: 0 <= i < |lines| && 0 <= j < |lines| && lines[i].Instr? && lines[j].Instr?
                   && lines[i].id == lines[j].id ==>
                     lines[i].term == lines[j].term && lines[i].recs == lines[j].recs
  }

  /** Runs and slots are in order, and equal texts are equal instructions. */
  ghost predicate FlatOk(f: Flat) {
    && RunsOk(f.lines, f.runs) && SlotsOk(f.runs, f.slots)
    && (forall p :: 0 <= p < |f.slots| ==>
                      0 <= LineOf(f.runs, f.slots[p]) < |f.lines| && f.lines[LineOf(f.runs, f.slots[p])].Instr?)
    && TextDecides(f.lines)
  }

  function LineAt(f: Flat, p: int): Line
    requires FlatOk(f) && 0 <= p < |f.slots|
  {
    f.lines[LineOf(f.runs, f.slots[p])]
  }

  function SlotId(f: Flat, p: int): int
    requires FlatOk(f) && 0 <= p < |f.slots|
  {
    LineAt(f, p).id
  }

  predicate TermAt(f: Flat, p: int)
    requires FlatOk(f) && 0 <= p < |f.slots|
  {
    LineAt(f, p).term
  }

  function RecsAt(f: Flat, p: int): nat
    requires FlatOk(f) && 0 <= p < |f.slots|
  {
    LineAt(f, p).recs
  }

  /** The texts of k slots. */
  function Text(f: Flat, p: int, k: nat): (r: seq<int>)
    requires FlatOk(f) && 0 <= p && p + k <= |f.slots|
    ensures |r| == k
    decreases k
  {
    if k == 0 then [] else Text(f, p, k - 1) + [SlotId(f, p + k - 1)]
  }

  ghost predicate SameText(f: Flat, p: int, q: int, k: nat)
    requires FlatOk(f)
  {
    Window(f.slots, p, k) && Window(f.slots, q, k) && Text(f, p, k) == Text(f, q, k)
  }

  lemma {:induction false} TextPrefix(f: Flat, p: int, d: nat, k: nat)
    requires FlatOk(f) && 0 <= p && p + d <= |f.slots| && k <= d
    ensures Text(f, p, k) == Text(f, p, d)[..k]
    decreases d
  {
    hide Owned, Good;
    if k < d { TextPrefix(f, p, d - 1, k); }
  }

  lemma {:induction false} FlatFrom(lines: seq<Line>, runs: seq<Run>, slots: seq<Slot>)
    requires RunsOk(lines, runs) && SlotsOk(runs, slots)
    requires TextDecides(lines)
    ensures FlatOk(Flat(lines, runs, slots))
  {
    forall p | 0 <= p < |slots| ensures 0 <= LineOf(runs, slots[p]) < |lines| && lines[LineOf(runs, slots[p])].Instr? {
      assert RunOk(lines, runs[slots[p].run]);
      ChainMembers(lines, runs[slots[p].run].at, runs[slots[p].run].sec);
    }
  }
}
