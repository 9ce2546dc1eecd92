/** Repeated instruction sequences (host/dmacc/outline.go): every one that pays is found, with all its
    occurrences, in order of what it saves. */
module Repeats {
  import opened Outliner
  import opened Outlining
  import opened Sizes

  const MAXK: nat := 40

  // ----- the suffix order -----

  /** Fewer than d + 1 slots of its run follow from a. */
  predicate Ended(f: Flat, a: int, d: nat)
    requires 0 <= a < |f.slots|
  {
    a + d >= |f.slots| || f.slots[a + d].run != f.slots[a].run
  }

  /** Texts up to MAXK inside the run, a prefix before its extension, then position. */
  predicate Precedes(f: Flat, a: int, b: int, d: nat)
    requires FlatOk(f) && 0 <= a < |f.slots| && 0 <= b < |f.slots| && d <= MAXK
    decreases MAXK - d
  {
    if d == MAXK then a < b
    else if Ended(f, a, d) || Ended(f, b, d) then
      if Ended(f, a, d) != Ended(f, b, d) then Ended(f, a, d) else a < b
    else if SlotId(f, a + d) != SlotId(f, b + d) then SlotId(f, a + d) < SlotId(f, b + d)
    else Precedes(f, a, b, d + 1)
  }

  lemma {:induction false} PrecedesOr(f: Flat, a: int, b: int, c: int, d: nat)
    requires FlatOk(f) && 0 <= a < |f.slots| && 0 <= b < |f.slots| && 0 <= c < |f.slots| && d <= MAXK
    requires Precedes(f, a, c, d)
    ensures Precedes(f, a, b, d) || Precedes(f, b, c, d)
    decreases MAXK - d
  {
    hide FlatOk, SlotId;
    if d < MAXK && !Ended(f, a, d) && !Ended(f, b, d) && !Ended(f, c, d)
       && SlotId(f, a + d) == SlotId(f, b + d) == SlotId(f, c + d) {
      PrecedesOr(f, a, b, c, d + 1);
    }
  }

  lemma {:induction false} PrecedesTotal(f: Flat, a: int, b: int, d: nat)
    requires FlatOk(f) && 0 <= a < |f.slots| && 0 <= b < |f.slots| && d <= MAXK && a != b
    ensures Precedes(f, a, b, d) || Precedes(f, b, a, d)
    decreases MAXK - d
  {
    hide FlatOk, SlotId;
    if d < MAXK { PrecedesTotal(f, a, b, d + 1); }
  }

  lemma {:induction false} PrecedesNotSelf(f: Flat, a: int, d: nat)
    requires FlatOk(f) && 0 <= a < |f.slots| && d <= MAXK
    ensures !Precedes(f, a, a, d)
    decreases MAXK - d
  {
    hide FlatOk, SlotId;
    if d < MAXK { PrecedesNotSelf(f, a, d + 1); }
  }

  ghost predicate Ordered(f: Flat, order: seq<int>)
    requires FlatOk(f)
  {
    && (forall t :: 0 <= t < |order| ==> 0 <= order[t] < |f.slots|)
    && forall s, t :: 0 <= s < t < |order| ==> Precedes(f, order[s], order[t], 0)
  }

  /** Every slot once, in suffix order. */
  ghost predicate Sorted(f: Flat, order: seq<int>)
    requires FlatOk(f)
  {
    Ordered(f, order) && forall p :: 0 <= p < |f.slots| ==> p in order
  }

  /** A slot put where it belongs. */
  lemma {:induction false} InsertOrdered(f: Flat, order: seq<int>, i: nat, x: int)
    requires FlatOk(f) && Ordered(f, order) && i <= |order| && 0 <= x < |f.slots| && x !in order
    requires forall t :: 0 <= t < i ==> Precedes(f, order[t], x, 0)
    requires i < |order| ==> !Precedes(f, order[i], x, 0)
    ensures Ordered(f, order[..i] + [x] + order[i..])
  {
    hide FlatOk, Precedes;
    var r := order[..i] + [x] + order[i..];
    forall t | i <= t < |order| ensures Precedes(f, x, order[t], 0) {
      if t == i {
        assert order[i] in order;
        PrecedesTotal(f, order[i], x, 0);
      } else {
        PrecedesOr(f, order[i], x, order[t], 0);
      }
    }
    forall s, t | 0 <= s < t < |r| ensures Precedes(f, r[s], r[t], 0) {
      assert s < i ==> r[s] == order[s];
      assert s > i ==> r[s] == order[s - 1];
      assert t < i ==> r[t] == order[t];
      assert t > i ==> r[t] == order[t - 1];
    }
  }

  /** Every slot, in suffix order. */
  method SortSuffixes(f: Flat) returns (order: seq<int>)
    requires FlatOk(f)
    ensures Sorted(f, order)
  {
    hide FlatOk, Precedes, Ordered;
    order := [];
    assert Ordered(f, order) by { OrderedNone(f); }
    for x := 0 to |f.slots|
      invariant Ordered(f, order) && forall p :: p in order <==> 0 <= p < x
    {
      OrderedInside(f, order);
      var i := 0;
      while i < |order| && Precedes(f, order[i], x, 0)
        invariant 0 <= i <= |order| && forall t :: 0 <= t < i ==> Precedes(f, order[t], x, 0)
      {
        i := i + 1;
      }
      InsertOrdered(f, order, i, x);
      ghost var was := order;
      order := order[..i] + [x] + order[i..];
      forall p ensures p in order <==> p in was || p == x { InsertedIn(was, i, x, p); }
    }
  }

  lemma OrderedNone(f: Flat)
    requires FlatOk(f)
    ensures Ordered(f, [])
  {
  }

  lemma OrderedInside(f: Flat, order: seq<int>)
    requires FlatOk(f) && Ordered(f, order)
    ensures forall t :: 0 <= t < |order| ==> 0 <= order[t] < |f.slots|
  {
  }

  lemma InsertedIn(s: seq<int>, i: nat, x: int, p: int)
    requires i <= |s|
    ensures p in s[..i] + [x] + s[i..] <==> p in s || p == x
  {
    assert s == s[..i] + s[i..];
  }

  // ----- common prefixes -----

  /** The n slots from a and from b are in their runs and have the same texts. */
  ghost predicate Agree(f: Flat, a: int, b: int, n: nat)
    requires FlatOk(f) && 0 <= a < |f.slots| && 0 <= b < |f.slots|
  {
    forall d :: 0 <= d < n ==> Match(f, a, b, d)
  }

  predicate Match(f: Flat, a: int, b: int, d: nat)
    requires FlatOk(f) && 0 <= a < |f.slots| && 0 <= b < |f.slots|
  {
    !Ended(f, a, d) && !Ended(f, b, d) && SlotId(f, a + d) == SlotId(f, b + d)
  }

  lemma {:induction false} TextAt(f: Flat, p: int, k: nat, d: nat)
    requires FlatOk(f) && 0 <= p && p + k <= |f.slots| && d < k
    ensures Text(f, p, k)[d] == SlotId(f, p + d)
    decreases k
  {
    hide FlatOk, SlotId;
    if d < k - 1 { TextAt(f, p, k - 1, d); }
  }

  lemma {:induction false} ShorterWindow(runs: seq<Run>, slots: seq<Slot>, p: int, d: nat, k: nat)
    requires SlotsOk(runs, slots) && Window(slots, p, d) && 1 <= k <= d
    ensures Window(slots, p, k)
  {
    hide SlotsOk;
    RunGrows(runs, slots, p, p + k - 1);
    RunGrows(runs, slots, p + k - 1, p + d - 1);
  }

  lemma {:induction false} SlotsOrdered(f: Flat)
    requires FlatOk(f)
    ensures SlotsOk(f.runs, f.slots) && RunsOk(f.lines, f.runs)
  {
  }

  lemma {:induction false} AgreeSame(f: Flat, a: int, b: int, k: nat)
    requires FlatOk(f) && 0 <= a < |f.slots| && 0 <= b < |f.slots| && k >= 1 && Agree(f, a, b, k)
    ensures SameText(f, a, b, k)
  {
    hide FlatOk, SlotId, Text;
    assert Match(f, a, b, k - 1);
    forall d | 0 <= d < k ensures Text(f, a, k)[d] == Text(f, b, k)[d] {
      assert Match(f, a, b, d);
      TextAt(f, a, k, d);
      TextAt(f, b, k, d);
    }
    assert Text(f, a, k) == Text(f, b, k);
  }

  lemma {:induction false} WindowGoesOn(f: Flat, p: int, k: nat, d: nat)
    requires FlatOk(f) && Window(f.slots, p, k) && d < k
    ensures !Ended(f, p, d)
  {
    SlotsOrdered(f);
    hide FlatOk, SlotsOk, RunsOk;
    ShorterWindow(f.runs, f.slots, p, k, d + 1);
  }

  lemma {:induction false} SameMatch(f: Flat, a: int, b: int, k: nat, d: nat)
    requires FlatOk(f) && SameText(f, a, b, k) && d < k
    ensures Match(f, a, b, d)
  {
    hide FlatOk, SlotId, Text, Ended;
    WindowGoesOn(f, a, k, d);
    WindowGoesOn(f, b, k, d);
    TextAt(f, a, k, d);
    TextAt(f, b, k, d);
  }

  /** Agreeing is having the same text. */
  lemma {:induction false} AgreeIs(f: Flat, a: int, b: int, k: nat)
    requires FlatOk(f) && 0 <= a < |f.slots| && 0 <= b < |f.slots| && k >= 1
    ensures Agree(f, a, b, k) <==> SameText(f, a, b, k)
  {
    hide FlatOk, SameText, Match;
    if Agree(f, a, b, k) {
      AgreeSame(f, a, b, k);
    }
    if SameText(f, a, b, k) {
      forall d | 0 <= d < k ensures Match(f, a, b, d) { SameMatch(f, a, b, k, d); }
    }
  }

  /** d is how far a and b agree, up to MAXK. */
  ghost predicate Longest(f: Flat, a: int, b: int, d: nat)
    requires FlatOk(f) && 0 <= a < |f.slots| && 0 <= b < |f.slots|
  {
    d <= MAXK && Agree(f, a, b, d) && (d < MAXK ==> !Match(f, a, b, d))
  }

  /** The common prefix of two positions, within their runs and at most MAXK. */
  method Common(f: Flat, a: int, b: int) returns (d: nat)
    requires FlatOk(f) && 0 <= a < |f.slots| && 0 <= b < |f.slots|
    ensures Longest(f, a, b, d)
  {
    hide FlatOk, Match;
    d := 0;
    while d < MAXK && Match(f, a, b, d)
      invariant d <= MAXK && Agree(f, a, b, d)
    {
      d := d + 1;
    }
  }

  /** lcp[t + 1] is the common prefix of order's t-th and next slots. */
  ghost predicate PrefixesOf(f: Flat, order: seq<int>, lcp: seq<nat>)
    requires FlatOk(f) && Ordered(f, order)
  {
    |lcp| == |order| && forall t :: 0 < t < |order| ==> Longest(f, order[t - 1], order[t], lcp[t])
  }

  /** Common prefixes of neighbours in the sorted order. */
  method Prefixes(f: Flat, order: seq<int>) returns (lcp: seq<nat>)
    requires FlatOk(f) && Ordered(f, order)
    ensures PrefixesOf(f, order, lcp)
  {
    OrderedInside(f, order);
    hide FlatOk, Longest, Ordered;
    lcp := [];
    for t := 0 to |order|
      invariant |lcp| == t && forall u :: 0 < u < t ==> Longest(f, order[u - 1], order[u], lcp[u])
    {
      var d := 0;
      if t > 0 { d := Common(f, order[t - 1], order[t]); }
      lcp := lcp + [d];
    }
  }

  /** In the sorted order, slots before which two agree all agree with them. */
  lemma {:induction false} Deeper(f: Flat, a: int, b: int, d: nat)
    requires FlatOk(f) && 0 <= a < |f.slots| && 0 <= b < |f.slots| && d <= MAXK
    requires Precedes(f, a, b, 0) && Agree(f, a, b, d)
    ensures Precedes(f, a, b, d)
    decreases d
  {
    hide FlatOk, SlotId;
    if d > 0 {
      Deeper(f, a, b, d - 1);
      assert Match(f, a, b, d - 1);
    }
  }

  lemma {:induction false} Between(f: Flat, a: int, b: int, c: int, k: nat, n: nat)
    requires FlatOk(f) && 0 <= a < |f.slots| && 0 <= b < |f.slots| && 0 <= c < |f.slots| && n <= k <= MAXK
    requires Agree(f, a, c, k) && Precedes(f, a, b, 0) && Precedes(f, b, c, 0)
    ensures Agree(f, a, b, n)
    decreases n
  {
    hide FlatOk, SlotId, Precedes;
    if n > 0 {
      var d := n - 1;
      Between(f, a, b, c, k, d);
      forall e | 0 <= e < d ensures Match(f, b, c, e) { assert Match(f, a, b, e) && Match(f, a, c, e); }
      Deeper(f, a, b, d);
      Deeper(f, b, c, d);
      assert Match(f, a, c, d);
      Squeezed(f, a, b, c, d);
    }
  }

  lemma Squeezed(f: Flat, a: int, b: int, c: int, d: nat)
    requires FlatOk(f) && 0 <= a < |f.slots| && 0 <= b < |f.slots| && 0 <= c < |f.slots| && d < MAXK
    requires Precedes(f, a, b, d) && Precedes(f, b, c, d) && Match(f, a, c, d)
    ensures Match(f, a, b, d)
  {
    hide FlatOk, SlotId;
  }

  lemma {:induction false} AgreeTrans(f: Flat, a: int, b: int, c: int, k: nat)
    requires FlatOk(f) && 0 <= a < |f.slots| && 0 <= b < |f.slots| && 0 <= c < |f.slots|
    requires (Agree(f, a, b, k) || Agree(f, b, a, k)) && Agree(f, b, c, k)
    ensures Agree(f, a, c, k)
  {
    hide FlatOk, SlotId;
    forall d | 0 <= d < k ensures Match(f, a, c, d) {
      assert Match(f, b, c, d) && (Agree(f, a, b, k) ==> Match(f, a, b, d));
      assert Agree(f, b, a, k) ==> Match(f, b, a, d);
    }
  }

  // ----- groups of equal texts -----

  /** A longest stretch of the order whose neighbours share k instructions. */
  ghost predicate Group(order: seq<int>, lcp: seq<nat>, k: nat, s: int, e: int)
    requires |lcp| == |order|
  {
    && 0 <= s <= e < |order| && (forall t :: s < t <= e ==> lcp[t] >= k)
    && (s > 0 ==> lcp[s] < k) && (e + 1 < |order| ==> lcp[e + 1] < k)
  }

  lemma {:induction false} LongAgrees(f: Flat, a: int, b: int, d: nat, k: nat)
    requires FlatOk(f) && 0 <= a < |f.slots| && 0 <= b < |f.slots| && Longest(f, a, b, d) && k <= MAXK
    ensures Agree(f, a, b, k) <==> k <= d
  {
    hide FlatOk, Match;
    if k > d && Agree(f, a, b, k) {
      AgreeAt(f, a, b, k, d);
      assert false;
    }
  }

  lemma AgreeAt(f: Flat, a: int, b: int, k: nat, d: nat)
    requires FlatOk(f) && 0 <= a < |f.slots| && 0 <= b < |f.slots| && Agree(f, a, b, k) && d < k
    ensures Match(f, a, b, d)
  {
    hide FlatOk, Match;
  }

  lemma {:induction false} GroupAgrees(f: Flat, order: seq<int>, lcp: seq<nat>, k: nat, s: int, t: int)
    requires FlatOk(f) && Ordered(f, order) && PrefixesOf(f, order, lcp) && k <= MAXK
    requires 0 <= s <= t < |order| && (forall u :: s < u <= t ==> lcp[u] >= k) && Agree(f, order[s], order[s], k)
    ensures Agree(f, order[s], order[t], k)
    decreases t
  {
    hide FlatOk, Agree, Longest, Precedes;
    if s < t {
      GroupAgrees(f, order, lcp, k, s, t - 1);
      assert Longest(f, order[t - 1], order[t], lcp[t]);
      LongAgrees(f, order[t - 1], order[t], lcp[t], k);
      AgreeTrans(f, order[s], order[t - 1], order[t], k);
    }
  }

  /** Slots that agree are neighbours, and their neighbours share as much. */
  lemma {:induction false} AgreeNeighbours(f: Flat, order: seq<int>, lcp: seq<nat>, k: nat, s: int, t: int, u: int)
    requires FlatOk(f) && Ordered(f, order) && PrefixesOf(f, order, lcp) && k <= MAXK
    requires 0 <= s < u <= t < |order| && Agree(f, order[s], order[t], k)
    ensures lcp[u] >= k
  {
    hide FlatOk, Agree, Longest, Precedes;
    AgreeUpTo(f, order, k, s, t, u - 1);
    AgreeUpTo(f, order, k, s, t, u);
    assert Longest(f, order[u - 1], order[u], lcp[u]);
    LongAgrees(f, order[u - 1], order[u], lcp[u], k);
    AgreeTrans(f, order[u - 1], order[s], order[u], k);
  }

  lemma {:induction false} AgreeUpTo(f: Flat, order: seq<int>, k: nat, s: int, t: int, u: int)
    requires FlatOk(f) && Ordered(f, order) && k <= MAXK
    requires 0 <= s <= u <= t < |order| && s < t && Agree(f, order[s], order[t], k)
    ensures Agree(f, order[s], order[u], k)
  {
    hide FlatOk, Precedes, SlotId;
    if u == s {
      forall d | 0 <= d < k ensures Match(f, order[s], order[s], d) { assert Match(f, order[s], order[t], d); }
    } else if u < t {
      Between(f, order[s], order[u], order[t], k, k);
    }
  }

  /** A group is every slot that agrees with its first. */
  lemma {:induction false} GroupExact(f: Flat, order: seq<int>, lcp: seq<nat>, k: nat, s: int, e: int, t: int)
    requires FlatOk(f) && Ordered(f, order) && PrefixesOf(f, order, lcp) && 1 <= k <= MAXK
    requires Group(order, lcp, k, s, e) && 0 <= t < |order| && Agree(f, order[s], order[s], k)
    ensures Agree(f, order[s], order[t], k) <==> s <= t <= e
  {
    hide FlatOk, Agree, PrefixesOf, Precedes;
    OrderedInside(f, order);
    hide Ordered;
    if s <= t <= e {
      GroupAgrees(f, order, lcp, k, s, t);
    } else if Agree(f, order[s], order[t], k) {
      if t > e {
        AgreeNeighbours(f, order, lcp, k, s, t, e + 1);
      } else {
        AgreeTrans(f, order[t], order[s], order[s], k);
        AgreeNeighbours(f, order, lcp, k, t, s, s);
      }
      assert false;
    }
  }

  // ----- candidates -----

  predicate Ascending(s: seq<int>) {
    forall i, j :: 0 <= i < j < |s| ==> s[i] < s[j]
  }

  predicate Different(s: seq<int>) {
    forall i, j :: 0 <= i < j < |s| ==> s[i] != s[j]
  }

  /** The same numbers in order. */
  method SortInts(s: seq<int>) returns (r: seq<int>)
    requires Different(s)
    ensures Ascending(r) && |r| == |s| && forall p :: p in r <==> p in s
  {
    r := [];
    for n := 0 to |s|
      invariant Ascending(r) && |r| == n && forall p :: p in r <==> p in s[..n]
    {
      var x := s[n];
      assert x !in s[..n];
      var i := 0;
      while i < |r| && r[i] < x
        invariant 0 <= i <= |r| && forall t :: 0 <= t < i ==> r[t] < x
      {
        i := i + 1;
      }
      assert i < |r| ==> r[i] in r;
      ghost var was := r;
      r := r[..i] + [x] + r[i..];
      assert s[..n + 1] == s[..n] + [x];
      forall p ensures p in r <==> p in s[..n + 1] { InsertedIn(was, i, x, p); }
    }
    assert s[..|s|] == s;
  }

  ghost function Occurrences(f: Flat, p: int, k: nat): set<int>
    requires FlatOk(f)
  {
    set r | 0 <= r < |f.slots| && SameText(f, p, r, k)
  }

  /** Taking every occurrence of the k slots from p would save bytes. */
  ghost predicate Worth(f: Flat, p: int, k: nat)
    requires FlatOk(f) && Window(f.slots, p, k)
  {
    Save(|Occurrences(f, p, k)|, BodyRecs(f.lines, Text(f, p, k)), TermAt(f, p + k - 1)) > 0
  }

  datatype Cand = Cand(k: nat, pos: seq<int>, recs: nat, term: bool)

  /** All occurrences of a text, in order, with its price. */
  ghost predicate CandOk(f: Flat, c: Cand)
    requires FlatOk(f)
  {
    && 2 <= c.k <= MAXK && c.pos != [] && Ascending(c.pos) && Window(f.slots, c.pos[0], c.k)
    && (forall r :: r in c.pos <==> SameText(f, c.pos[0], r, c.k))
    && c.term == TermAt(f, c.pos[0] + c.k - 1) && c.recs == BodyRecs(f.lines, Text(f, c.pos[0], c.k))
  }

  predicate Holds(c: Cand, p: int, k: nat) {
    c.k == k && p in c.pos
  }

  /** Some candidate of length k holds p. */
  ghost predicate Found(cands: seq<Cand>, p: int, k: nat) {
    exists x :: 0 <= x < |cands| && Holds(cands[x], p, k)
  }

  /** The records of one copy. */
  method Records(f: Flat, p: int, k: nat) returns (recs: nat)
    requires FlatOk(f) && Window(f.slots, p, k)
    ensures recs == BodyRecs(f.lines, Text(f, p, k))
  {
    recs := 0;
    for d := 0 to k
      invariant recs == BodyRecs(f.lines, Text(f, p, d))
    {
      hide FlatOk, RecsOfId;
      TextMore(f, p, d);
      recs := recs + RecsAt(f, p + d);
    }
  }

  lemma {:induction false} TextMore(f: Flat, p: int, d: nat)
    requires FlatOk(f) && 0 <= p && p + d < |f.slots|
    ensures BodyRecs(f.lines, Text(f, p, d + 1)) == BodyRecs(f.lines, Text(f, p, d)) + RecsAt(f, p + d)
  {
    hide RunsOk, RecsOfId, Owned, Good;
    var ids := Text(f, p, d + 1);
    assert ids[..|ids| - 1] == Text(f, p, d) && ids[|ids| - 1] == SlotId(f, p + d);
    RecsOfLine(f.lines, LineOf(f.runs, f.slots[p + d]));
  }

  lemma {:induction false} SameSelf(f: Flat, a: int, k: nat)
    requires FlatOk(f) && 0 <= a < |f.slots| && Window(f.slots, a, k)
    ensures Agree(f, a, a, k)
  {
    hide FlatOk;
    AgreeIs(f, a, a, k);
  }

  lemma {:induction false} OrderedDiffer(f: Flat, order: seq<int>, s: int, e: int)
    requires FlatOk(f) && Ordered(f, order) && 0 <= s <= e < |order|
    ensures Different(order[s..e + 1])
  {
    hide FlatOk, Precedes;
    var part := order[s..e + 1];
    forall i, j | 0 <= i < j < |part| ensures part[i] != part[j] {
      assert Precedes(f, order[s + i], order[s + j], 0);
      PrecedesNotSelf(f, order[s + i], 0);
    }
  }

  lemma {:induction false} DifferentCard(s: seq<int>)
    requires Different(s)
    ensures |set p | p in s| == |s|
    decreases |s|
  {
    if s != [] {
      var n := |s| - 1;
      DifferentCard(s[..n]);
      var before := set p | p in s[..n];
      assert (set p | p in s) == before + {s[n]};
      assert s[n] !in before;
    }
  }

  /** The slots of a group are the occurrences of each of them. */
  lemma {:induction false} GroupOccurs(f: Flat, order: seq<int>, lcp: seq<nat>, k: nat, s: int, e: int, r: int)
    requires FlatOk(f) && Sorted(f, order) && PrefixesOf(f, order, lcp) && 1 <= k <= MAXK
    requires Group(order, lcp, k, s, e) && Window(f.slots, order[s], k)
    ensures r in order[s..e + 1] <==> SameText(f, order[s], r, k)
  {
    hide FlatOk, PrefixesOf, Precedes, Agree, SameText;
    OrderedInside(f, order);
    SameSelf(f, order[s], k);
    if r in order[s..e + 1] {
      var t :| s <= t <= e && order[t] == r;
      GroupExact(f, order, lcp, k, s, e, t);
      AgreeIs(f, order[s], r, k);
    } else if 0 <= r < |f.slots| {
      assert r in order;
      var t :| 0 <= t < |order| && order[t] == r;
      InPart(order, s, e, t);
      GroupExact(f, order, lcp, k, s, e, t);
      AgreeIs(f, order[s], r, k);
    } else {
      SameInside(f, order[s], r, k);
    }
  }

  lemma InPart(s: seq<int>, i: int, j: int, t: int)
    requires 0 <= i <= j < |s| && 0 <= t < |s|
    ensures i <= t <= j ==> s[t] in s[i..j + 1]
  {
    if i <= t <= j { assert s[i..j + 1][t - i] == s[t]; }
  }

  lemma SameInside(f: Flat, p: int, r: int, k: nat)
    requires FlatOk(f)
    ensures SameText(f, p, r, k) ==> 0 <= r < |f.slots|
  {
    hide FlatOk, Text;
  }

  /** A member of a group has as many occurrences as the group has slots. */
  lemma {:induction false} GroupWorth(f: Flat, order: seq<int>, lcp: seq<nat>, k: nat, s: int, e: int, p: int)
    requires FlatOk(f) && Sorted(f, order) && PrefixesOf(f, order, lcp) && 1 <= k <= MAXK
    requires Group(order, lcp, k, s, e) && Window(f.slots, order[s], k) && p in order[s..e + 1]
    ensures Window(f.slots, p, k)
    ensures Worth(f, p, k) <==>
              Save(e - s + 1, BodyRecs(f.lines, Text(f, order[s], k)), TermAt(f, order[s] + k - 1)) > 0
  {
    hide PrefixesOf, Precedes, FlatOk, TermAt, Text, BodyRecs, Save;
    GroupOccurs(f, order, lcp, k, s, e, p);
    var part := order[s..e + 1];
    forall r ensures r in part <==> r in Occurrences(f, p, k) {
      GroupOccurs(f, order, lcp, k, s, e, r);
      SameInside(f, p, r, k);
    }
    assert (set r | r in part) == Occurrences(f, p, k);
    OrderedDiffer(f, order, s, e);
    DifferentCard(part);
    SameEnding(f, order[s], p, k);
  }

  lemma {:induction false} SameEnding(f: Flat, p: int, q: int, k: nat)
    requires FlatOk(f) && SameText(f, p, q, k)
    ensures TermAt(f, p + k - 1) == TermAt(f, q + k - 1)
  {
    hide Owned, Good, RunsOk, Text;
    TextAt(f, p, k, k - 1);
    TextAt(f, q, k, k - 1);
    var i, j := LineOf(f.runs, f.slots[p + k - 1]), LineOf(f.runs, f.slots[q + k - 1]);
    assert f.lines[i].id == f.lines[j].id;
  }

  lemma {:induction false} GroupWindow(f: Flat, order: seq<int>, lcp: seq<nat>, k: nat, s: int, e: int)
    requires FlatOk(f) && Sorted(f, order) && PrefixesOf(f, order, lcp) && 1 <= k <= MAXK
    requires Group(order, lcp, k, s, e) && s < e
    ensures Window(f.slots, order[s], k)
  {
    hide FlatOk, Precedes, Agree, Longest, Text;
    OrderedInside(f, order);
    var n := s + 1;
    assert Longest(f, order[n - 1], order[n], lcp[n]);
    LongAgrees(f, order[s], order[n], lcp[n], k);
    AgreeIs(f, order[s], order[n], k);
  }

  lemma {:induction false} GroupCand(f: Flat, order: seq<int>, lcp: seq<nat>, k: nat, s: int, e: int, c: Cand)
    requires FlatOk(f) && Sorted(f, order) && PrefixesOf(f, order, lcp) && 2 <= k <= MAXK
    requires Group(order, lcp, k, s, e) && Window(f.slots, order[s], k)
    requires c.k == k && Ascending(c.pos) && |c.pos| > 0 && forall p :: p in c.pos <==> p in order[s..e + 1]
    requires c.recs == BodyRecs(f.lines, Text(f, order[s], k)) && c.term == TermAt(f, order[s] + k - 1)
    ensures CandOk(f, c)
  {
    hide FlatOk, Sorted, PrefixesOf, Text, BodyRecs, TermAt, Ascending, Window;
    var p := c.pos[0];
    assert p in c.pos;
    GroupOccurs(f, order, lcp, k, s, e, p);
    SameEnding(f, order[s], p, k);
    forall r ensures r in c.pos <==> SameText(f, p, r, k) {
      GroupOccurs(f, order, lcp, k, s, e, r);
    }
  }

  /** Those of the slots whose text pays are in candidates of length k. */
  ghost predicate FoundIn(f: Flat, ps: seq<int>, k: nat, cands: seq<Cand>)
    requires FlatOk(f)
  {
    forall p :: p in ps && Window(f.slots, p, k) && Worth(f, p, k) ==> Found(cands, p, k)
  }

  /** A group that pays is one candidate. */
  method TakeGroup(f: Flat, order: seq<int>, lcp: seq<nat>, k: nat, s: int, e: int) returns (cands: seq<Cand>)
    requires FlatOk(f) && Sorted(f, order) && PrefixesOf(f, order, lcp) && 2 <= k <= MAXK
    requires Group(order, lcp, k, s, e)
    ensures forall x :: 0 <= x < |cands| ==> CandOk(f, cands[x])
    ensures FoundIn(f, order[s..e + 1], k, cands)
  {
    hide FlatOk, Sorted, PrefixesOf, CandOk, Worth, Text, BodyRecs, TermAt, Window;
    cands := [];
    if e > s {
      GroupWindow(f, order, lcp, k, s, e);
      var recs := Records(f, order[s], k);
      var term := TermInside(f, order[s], k);
      if Save(e - s + 1, recs, term) > 0 {
        SortedDiffer(f, order, s, e);
        var pos := SortInts(order[s..e + 1]);
        var c := Cand(k, pos, recs, term);
        GroupCand(f, order, lcp, k, s, e, c);
        cands := [c];
        assert forall p :: p in order[s..e + 1] ==> Holds(cands[0], p, k);
      } else {
        forall p | p in order[s..e + 1] ensures !(Window(f.slots, p, k) && Worth(f, p, k)) {
          GroupWorth(f, order, lcp, k, s, e, p);
        }
      }
    } else {
      forall p | p in order[s..e + 1] && Window(f.slots, p, k) ensures !Worth(f, p, k) {
        GroupWorth(f, order, lcp, k, s, e, p);
      }
    }
  }

  lemma SortedDiffer(f: Flat, order: seq<int>, s: int, e: int)
    requires FlatOk(f) && Sorted(f, order) && 0 <= s <= e < |order|
    ensures Different(order[s..e + 1])
  {
    OrderedDiffer(f, order, s, e);
  }

  function TermInside(f: Flat, p: int, k: nat): (r: bool)
    requires FlatOk(f) && Window(f.slots, p, k)
    ensures r == TermAt(f, p + k - 1)
  {
    TermAt(f, p + k - 1)
  }

  /** Every text of k instructions that pays is among the candidates. */
  ghost predicate AllFound(f: Flat, cands: seq<Cand>, k: nat)
    requires FlatOk(f)
  {
    forall p :: Window(f.slots, p, k) && Worth(f, p, k) ==> Found(cands, p, k)
  }

  lemma {:induction false} FoundMore(a: seq<Cand>, b: seq<Cand>, p: int, k: nat)
    requires Found(a, p, k) || Found(b, p, k)
    ensures Found(a + b, p, k)
  {
    var all := a + b;
    if Found(a, p, k) {
      var x :| 0 <= x < |a| && Holds(a[x], p, k);
      assert Holds(all[x], p, k);
    } else {
      var x :| 0 <= x < |b| && Holds(b[x], p, k);
      assert Holds(all[|a| + x], p, k);
    }
  }

  /** The end of the group that starts at s. */
  method GroupEnd(order: seq<int>, lcp: seq<nat>, k: nat, s: int) returns (e: int)
    requires |lcp| == |order| && 0 <= s < |order| && (s > 0 ==> lcp[s] < k)
    ensures Group(order, lcp, k, s, e)
  {
    e := s;
    while e + 1 < |order| && lcp[e + 1] >= k
      invariant s <= e < |order| && forall t :: s < t <= e ==> lcp[t] >= k
      decreases |order| - e
    {
      e := e + 1;
    }
  }

  /** The sorted slots with their common prefixes. */
  ghost predicate Indexed(f: Flat, order: seq<int>, lcp: seq<nat>)
    requires FlatOk(f)
  {
    Sorted(f, order) && PrefixesOf(f, order, lcp)
  }

  ghost predicate CandsOk(f: Flat, cands: seq<Cand>)
    requires FlatOk(f)
  {
    forall x :: 0 <= x < |cands| ==> CandOk(f, cands[x])
  }

  /** The next group, and the slots found with it. */
  method MineGroup(f: Flat, order: seq<int>, lcp: seq<nat>, k: nat, s: int, cands: seq<Cand>)
    returns (e: int, cands': seq<Cand>)
    requires FlatOk(f) && Indexed(f, order, lcp) && 2 <= k <= MAXK && |lcp| == |order|
    requires 0 <= s < |order| && (s > 0 ==> lcp[s] < k) && CandsOk(f, cands) && FoundIn(f, order[..s], k, cands)
    ensures s < e <= |order| && (e < |order| ==> lcp[e] < k) && CandsOk(f, cands') && FoundIn(f, order[..e], k, cands')
  {
    hide FlatOk, Sorted, PrefixesOf, CandOk, Worth, Window, Found, FoundIn, Group;
    e := GroupEnd(order, lcp, k, s);
    GroupBounds(order, lcp, k, s, e);
    var more := TakeGroup(f, order, lcp, k, s, e);
    e := e + 1;
    FoundTo(f, order, k, cands, more, s, e);
    cands' := cands + more;
  }

  /** All repeats of length k: neighbours that share k instructions are one candidate. */
  method MineLength(f: Flat, order: seq<int>, lcp: seq<nat>, k: nat) returns (cands: seq<Cand>)
    requires FlatOk(f) && Indexed(f, order, lcp) && 2 <= k <= MAXK
    ensures CandsOk(f, cands) && AllFound(f, cands, k)
  {
    PrefixCount(f, order, lcp);
    hide FlatOk, Indexed, FoundIn, CandsOk;
    cands := [];
    assert order[..0] == [];
    NoneFound(f, k);
    var s := 0;
    while s < |order|
      invariant 0 <= s <= |order| && (0 < s < |order| ==> lcp[s] < k)
      invariant CandsOk(f, cands) && FoundIn(f, order[..s], k, cands)
      decreases |order| - s
    {
      s, cands := MineGroup(f, order, lcp, k, s, cands);
    }
    assert order[..s] == order;
    FoundAll(f, order, lcp, k, cands);
  }

  lemma NoneFound(f: Flat, k: nat)
    requires FlatOk(f)
    ensures FoundIn(f, [], k, []) && CandsOk(f, [])
  {
  }

  lemma GroupBounds(order: seq<int>, lcp: seq<nat>, k: nat, s: int, e: int)
    requires |lcp| == |order| && Group(order, lcp, k, s, e)
    ensures s <= e < |order| && (e + 1 < |order| ==> lcp[e + 1] < k)
  {
  }

  lemma {:induction false} FoundTo(f: Flat, order: seq<int>, k: nat, a: seq<Cand>, b: seq<Cand>, s: int, e: int)
    requires FlatOk(f) && 0 <= s <= e <= |order| && FoundIn(f, order[..s], k, a) && FoundIn(f, order[s..e], k, b)
    ensures FoundIn(f, order[..e], k, a + b)
  {
    hide FlatOk, Worth, Window, Found;
    assert order[..e] == order[..s] + order[s..e];
    forall p | p in order[..e] && Window(f.slots, p, k) && Worth(f, p, k) ensures Found(a + b, p, k) {
      FoundMore(a, b, p, k);
    }
  }

  lemma {:induction false} FoundAll(f: Flat, order: seq<int>, lcp: seq<nat>, k: nat, cands: seq<Cand>)
    requires FlatOk(f) && Indexed(f, order, lcp) && FoundIn(f, order, k, cands)
    ensures AllFound(f, cands, k)
  {
    hide FlatOk, Worth, Found, Ordered, PrefixesOf;
    forall p | Window(f.slots, p, k) && Worth(f, p, k) ensures Found(cands, p, k) { assert p in order; }
  }

  lemma PrefixCount(f: Flat, order: seq<int>, lcp: seq<nat>)
    requires FlatOk(f) && Indexed(f, order, lcp)
    ensures |lcp| == |order|
  {
  }

  /** Repeats of every length: each candidate is a text with all its occurrences, and every text of 2
      to MAXK instructions that pays is one. */
  method Mine(f: Flat, order: seq<int>) returns (cands: seq<Cand>)
    requires FlatOk(f) && Sorted(f, order)
    ensures forall x :: 0 <= x < |cands| ==> CandOk(f, cands[x])
    ensures forall k :: 2 <= k <= MAXK ==> AllFound(f, cands, k)
  {
    hide FlatOk, CandOk, AllFound, Ordered;
    var lcp := Prefixes(f, order);
    cands := [];
    for k := 2 to MAXK + 1
      invariant CandsOk(f, cands) && forall j :: 2 <= j < k ==> AllFound(f, cands, j)
    {
      var more := MineLength(f, order, lcp, k);
      forall j | 2 <= j <= k ensures AllFound(f, cands + more, j) { FoundEither(f, cands, more, j); }
      cands := cands + more;
    }
  }

  lemma {:induction false} FoundEither(f: Flat, a: seq<Cand>, b: seq<Cand>, k: nat)
    requires FlatOk(f) && (AllFound(f, a, k) || AllFound(f, b, k))
    ensures AllFound(f, a + b, k)
  {
    hide FlatOk, Worth, Window, Found;
    forall p | Window(f.slots, p, k) && Worth(f, p, k) ensures Found(a + b, p, k) { FoundMore(a, b, p, k); }
  }

  // ----- best first -----

  /** Biggest saving first, then the longest body, then the earliest. */
  predicate Better(a: Cand, b: Cand)
    requires a.pos != [] && b.pos != []
  {
    var x, y := Save(|a.pos|, a.recs, a.term), Save(|b.pos|, b.recs, b.term);
    if x != y then x > y else if a.k != b.k then a.k > b.k else a.pos[0] < b.pos[0]
  }

  /** No candidate behind a better one. */
  ghost predicate Ranked(cands: seq<Cand>) {
    && (forall x :: 0 <= x < |cands| ==> cands[x].pos != [])
    && forall x, y :: 0 <= x < y < |cands| ==> !Better(cands[y], cands[x])
  }

  lemma {:induction false} InsertRanked(r: seq<Cand>, i: nat, c: Cand)
    requires Ranked(r) && i <= |r| && c.pos != [] && (forall y :: 0 <= y < i ==> Better(r[y], c))
    requires i < |r| ==> !Better(r[i], c)
    ensures Ranked(r[..i] + [c] + r[i..])
  {
    hide Save;
    var s := r[..i] + [c] + r[i..];
    forall x, y | 0 <= x < y < |s| ensures !Better(s[y], s[x]) {
      assert x < i ==> s[x] == r[x];
      assert x > i ==> s[x] == r[x - 1];
      assert y < i ==> s[y] == r[y];
      assert y > i ==> s[y] == r[y - 1];
      assert x == i && y > i + 1 ==> !Better(r[y - 1], r[i]);
    }
  }

  lemma RankedNone(f: Flat)
    requires FlatOk(f)
    ensures Ranked([]) && CandsOk(f, [])
  {
  }

  lemma RankedFull(r: seq<Cand>)
    requires Ranked(r)
    ensures forall x :: 0 <= x < |r| ==> r[x].pos != []
  {
  }

  lemma {:induction false} InsertedAll(f: Flat, r: seq<Cand>, i: nat, c: Cand, s: seq<Cand>)
    requires FlatOk(f) && i <= |r| && CandOk(f, c) && CandsOk(f, r) && s == r[..i] + [c] + r[i..]
    ensures multiset(s) == multiset(r) + multiset{c} && CandsOk(f, s)
  {
    hide FlatOk, CandOk;
    assert r == r[..i] + r[i..];
    forall y | 0 <= y < |s| ensures CandOk(f, s[y]) {
      if y < i { assert s[y] == r[y]; } else if y > i { assert s[y] == r[y - 1]; }
    }
  }

  /** Puts one candidate where it belongs. */
  method InsertBest(r: seq<Cand>, c: Cand) returns (r': seq<Cand>, ghost i: nat)
    requires Ranked(r) && c.pos != []
    ensures Ranked(r') && i <= |r| && r' == r[..i] + [c] + r[i..]
  {
    RankedFull(r);
    hide Better, Ranked;
    var n := 0;
    while n < |r| && Better(r[n], c)
      invariant 0 <= n <= |r| && forall y :: 0 <= y < n ==> Better(r[y], c)
    {
      n := n + 1;
    }
    InsertRanked(r, n, c);
    r', i := r[..n] + [c] + r[n..], n;
  }

  lemma CandAt(f: Flat, cands: seq<Cand>, x: int)
    requires FlatOk(f) && CandsOk(f, cands) && 0 <= x < |cands|
    ensures CandOk(f, cands[x]) && cands[x].pos != []
  {
    hide FlatOk, SameText, Text;
  }

  /** The candidates, best first. */
  method BestFirst(f: Flat, cands: seq<Cand>) returns (r: seq<Cand>)
    requires FlatOk(f) && CandsOk(f, cands)
    ensures Ranked(r) && multiset(r) == multiset(cands) && CandsOk(f, r)
  {
    hide FlatOk, CandsOk, CandOk, Ranked;
    r := [];
    RankedNone(f);
    for x := 0 to |cands|
      invariant Ranked(r) && multiset(r) == multiset(cands[..x]) && CandsOk(f, r)
    {
      assert cands[..x + 1] == cands[..x] + [cands[x]];
      CandAt(f, cands, x);
      ghost var was, i := r, 0;
      r, i := InsertBest(r, cands[x]);
      InsertedAll(f, was, i, cands[x], r);
    }
    assert cands[..|cands|] == cands;
  }
}
