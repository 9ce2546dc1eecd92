/** The choice of outlined occurrences (host/dmacc/outline.go): disjoint sites, one helper per section,
    and the pass as a whole. */
module Choosing {
  import opened Outliner
  import opened Outlining
  import opened Sizes
  import opened Repeats

  // ----- sites -----

  /** The site of a window. */
  function SiteOf(f: Flat, p: int, k: nat, h: int): Site
    requires FlatOk(f) && Window(f.slots, p, k)
  {
    Site(LineOf(f.runs, f.slots[p]), LineOf(f.runs, f.slots[p + k - 1]), h)
  }

  function SecOf(f: Flat, p: int): int
    requires FlatOk(f) && 0 <= p < |f.slots|
  {
    f.runs[f.slots[p].run].sec
  }

  /** A window's text is its run's. */
  lemma {:induction false} TextIs(f: Flat, p: int, k: nat)
    requires FlatOk(f) && Window(f.slots, p, k)
    ensures var at := f.runs[f.slots[p].run].at;
            && f.slots[p].m + k <= |at|
                && (forall x :: 0 <= x < |at| ==> 0 <= at[x] < |f.lines| && f.lines[at[x]].Instr?)
            && Text(f, p, k) == Texts(f.lines, at, f.slots[p].m, k)
                && f.slots[p + k - 1] == Slot(f.slots[p].run, f.slots[p].m + k - 1)
    decreases k
  {
    hide Owned, Good;
    var r := f.runs[f.slots[p].run];
    assert RunOk(f.lines, r);
    ChainMembers(f.lines, r.at, r.sec);
    RunGrows(f.runs, f.slots, p, p + k - 1);
    if k > 1 {
      ShorterWindow(f.runs, f.slots, p, k, k - 1);
      TextIs(f, p, k - 1);
    } else {
      assert Text(f, p, 1) == Text(f, p, 0) + [SlotId(f, p)];
      assert Texts(f.lines, r.at, f.slots[p].m, 1)
          == Texts(f.lines, r.at, f.slots[p].m, 0) + [f.lines[r.at[f.slots[p].m]].id];
    }
  }

  /** A window with a helper's text, section and ending is a well-formed site. */
  lemma {:induction false} SiteIsOk(f: Flat, o: Outlined, p: int, k: nat, h: int)
    requires FlatOk(f) && Window(f.slots, p, k) && k >= 2 && 0 <= h < |o.helpers|
    requires o.helpers[h].body == Text(f, p, k) && o.helpers[h].sec == SecOf(f, p)
    requires o.helpers[h].term == TermAt(f, p + k - 1)
    ensures SiteOk(f.lines, o, SiteOf(f, p, k, h))
  {
    WindowIs(f, p, k);
    hide FlatOk, SiteOk, Text, RangeOk, SecOf, TermAt, Window;
    RangeSite(f.lines, o, SiteOf(f, p, k, h).first, SiteOf(f, p, k, h).last, SecOf(f, p), h);
  }

  lemma {:induction false} WindowIs(f: Flat, p: int, k: nat)
    requires FlatOk(f) && Window(f.slots, p, k) && k >= 2
    ensures var a, b := SiteOf(f, p, k, 0).first, SiteOf(f, p, k, 0).last;
            && RangeOk(f.lines, a, b, SecOf(f, p)) && a < b && Ids(f.lines, a, b + 1) == Text(f, p, k)
            && f.lines[b].term == TermAt(f, p + k - 1)
  {
    hide Good, Owned, Texts, Ids, TextDecides, RangeOk;
    TextIs(f, p, k);
    var r, m := f.runs[f.slots[p].run], f.slots[p].m;
    assert RunOk(f.lines, r);
    WindowRange(f.lines, r.at, r.sec, m, k);
  }

  lemma {:induction false} RangeSite(lines: seq<Line>, o: Outlined, a: int, b: int, sec: int, h: int)
    requires RangeOk(lines, a, b, sec) && a < b && 0 <= h < |o.helpers| && o.helpers[h].sec == sec
    requires o.helpers[h].body == Ids(lines, a, b + 1) && o.helpers[h].term == lines[b].term
    ensures SiteOk(lines, o, Site(a, b, h))
  {
    hide Owned, Ids;
  }

  predicate Disjoint(p: int, k: nat, q: int, l: nat) {
    p + k <= q || q + l <= p
  }

  lemma {:induction false} SitesApart(f: Flat, p: int, k: nat, q: int, l: nat, h: int, g: int)
    requires FlatOk(f) && Window(f.slots, p, k) && Window(f.slots, q, l) && p + k <= q
    ensures SiteOf(f, p, k, h).last < SiteOf(f, q, l, g).first
  {
    LinesGrow(f.lines, f.runs, f.slots, p + k - 1, q);
  }

  // ----- the choice -----

  /** Sites chosen so far with their windows; used marks the slots taken. */
  datatype Choice = Choice(used: seq<bool>, out: Outlined, wins: seq<(int, nat)>)

  ghost predicate WinOk(f: Flat, c: Choice, i: int)
    requires FlatOk(f) && 0 <= i < |c.wins| == |c.out.sites|
  {
    var p, k, h := c.wins[i].0, c.wins[i].1, c.out.sites[i].helper;
    && Window(f.slots, p, k) && k >= 2 && 0 <= h < |c.out.helpers| && c.out.sites[i] == SiteOf(f, p, k, h)
    && c.out.helpers[h].body == Text(f, p, k) && c.out.helpers[h].sec == SecOf(f, p)
        && c.out.helpers[h].term == TermAt(f, p + k - 1)
  }

  /** Chosen windows are well formed, disjoint and marked. */
  ghost predicate ChoiceOk(f: Flat, c: Choice)
    requires FlatOk(f)
  {
    && |c.used| == |f.slots| && |c.wins| == |c.out.sites|
    && (forall i :: 0 <= i < |c.wins| ==> WinOk(f, c, i))
    && (forall i, j :: 0 <= i < j < |c.wins| ==> Disjoint(c.wins[i].0, c.wins[i].1, c.wins[j].0, c.wins[j].1))
    && (forall i, x :: 0 <= i < |c.wins| && c.wins[i].0 <= x < c.wins[i].0 + c.wins[i].1 && 0 <= x < |c.used| ==>
                      c.used[x])
  }

  lemma {:induction false} ChosenApart(f: Flat, c: Choice, i: int, j: int)
    requires FlatOk(f) && ChoiceOk(f, c) && 0 <= i < j < |c.out.sites|
    ensures c.out.sites[i].last < c.out.sites[j].first || c.out.sites[j].last < c.out.sites[i].first
  {
    assert WinOk(f, c, i) && WinOk(f, c, j);
    var a, b := c.wins[i], c.wins[j];
    assert Disjoint(a.0, a.1, b.0, b.1);
    hide FlatOk, ChoiceOk, SiteOf, Text, SecOf, TermAt;
    if a.0 + a.1 <= b.0 {
      SitesApart(f, a.0, a.1, b.0, b.1, c.out.sites[i].helper, c.out.sites[j].helper);
    } else {
      SitesApart(f, b.0, b.1, a.0, a.1, c.out.sites[j].helper, c.out.sites[i].helper);
    }
  }

  lemma {:induction false} ChosenOk(f: Flat, c: Choice, i: int)
    requires FlatOk(f) && ChoiceOk(f, c) && 0 <= i < |c.out.sites|
    ensures SiteOk(f.lines, c.out, c.out.sites[i])
  {
    assert WinOk(f, c, i);
    hide FlatOk, ChoiceOk, SiteOf, Text, SecOf, TermAt, SiteOk;
    SiteIsOk(f, c.out, c.wins[i].0, c.wins[i].1, c.out.sites[i].helper);
  }

  /** A choice is a rewriting with well-formed, disjoint sites. */
  lemma {:induction false} ChoiceOutlines(f: Flat, c: Choice)
    requires FlatOk(f) && ChoiceOk(f, c)
    ensures OutlinedOk(f.lines, c.out)
  {
    hide FlatOk, ChoiceOk, SiteOk;
    forall i | 0 <= i < |c.out.sites| ensures SiteOk(f.lines, c.out, c.out.sites[i]) { ChosenOk(f, c, i); }
    forall i, j | 0 <= i < |c.out.sites| && 0 <= j < |c.out.sites| && i != j
      ensures c.out.sites[i].last < c.out.sites[j].first || c.out.sites[j].last < c.out.sites[i].first
    {
      if i < j { ChosenApart(f, c, i, j); } else { ChosenApart(f, c, j, i); }
    }
  }

  predicate InWindow(x: int, p: int, k: nat) {
    p <= x < p + k
  }

  /** Occurrences taken but not yet placed: disjoint from each other and from every chosen window,
      and marked. */
  ghost predicate Held(f: Flat, c: Choice, k: nat, ps: seq<int>) {
    && |c.used| == |f.slots|
    && (forall x :: 0 <= x < |ps| ==> Window(f.slots, ps[x], k))
    && (forall x, y :: 0 <= x < y < |ps| ==> Disjoint(ps[x], k, ps[y], k))
    && (forall x, i :: 0 <= x < |ps| && 0 <= i < |c.wins| ==> Disjoint(ps[x], k, c.wins[i].0, c.wins[i].1))
    && (forall x, z :: 0 <= x < |ps| && 0 <= z < |c.used| && InWindow(z, ps[x], k) ==> c.used[z])
  }

  /** None of the k slots from p is taken. */
  method IsFree(used: seq<bool>, p: int, k: nat) returns (free: bool)
    requires 0 <= p && p + k <= |used|
    ensures free <==> forall x :: p <= x < p + k ==> !used[x]
  {
    for d := 0 to k
      invariant forall x :: p <= x < p + d ==> !used[x]
    {
      if used[p + d] { return false; }
    }
    free := true;
  }

  function Mark(used: seq<bool>, p: int, k: nat, v: bool): (r: seq<bool>)
    requires 0 <= p && p + k <= |used|
    ensures |r| == |used| && forall x :: 0 <= x < |used| ==> r[x] == if InWindow(x, p, k) then v else used[x]
  {
    used[..p] + seq(k, _ => v) + used[p + k..]
  }

  /** One of the k slots from p is taken. */
  ghost predicate Taken(used: seq<bool>, p: int, k: nat) {
    exists x :: 0 <= x < |used| && InWindow(x, p, k) && used[x]
  }

  lemma {:induction false} TakenStays(used: seq<bool>, p: int, k: nat, q: int)
    requires Taken(used, p, k) && 0 <= q && q + k <= |used|
    ensures Taken(Mark(used, q, k, true), p, k)
  {
    var x :| 0 <= x < |used| && InWindow(x, p, k) && used[x];
    assert Mark(used, q, k, true)[x];
  }

  /** Free slots are no part of a marked window. */
  lemma {:induction false} FreeApart(used: seq<bool>, p: int, k: nat, q: int, l: nat)
    requires 0 <= p && p + k <= |used| && 0 <= q && q + l <= |used| && k >= 1 && l >= 1
    requires (forall x :: p <= x < p + k ==> !used[x]) && forall x :: q <= x < q + l ==> used[x]
    ensures Disjoint(p, k, q, l)
  {
    var a, b := used[p], used[q];
  }

  lemma {:induction false} MarkKeeps(f: Flat, c: Choice, p: int, k: nat)
    requires FlatOk(f) && ChoiceOk(f, c) && Window(f.slots, p, k) && forall x :: p <= x < p + k ==> !c.used[x]
    ensures ChoiceOk(f, c.(used := Mark(c.used, p, k, true)))
    ensures forall i :: 0 <= i < |c.wins| ==> Disjoint(p, k, c.wins[i].0, c.wins[i].1)
  {
    hide Owned, Good;
    var c' := c.(used := Mark(c.used, p, k, true));
    forall i | 0 <= i < |c.wins| ensures Disjoint(p, k, c.wins[i].0, c.wins[i].1) && WinOk(f, c', i) {
      assert WinOk(f, c, i);
      var q, l := c.wins[i].0, c.wins[i].1;
      FreeApart(c.used, p, k, q, l);
    }
  }

  lemma WindowInside(slots: seq<Slot>, p: int, k: nat)
    requires Window(slots, p, k)
    ensures 0 <= p && p + k <= |slots|
  {
  }

  /** Takes every occurrence whose slots are all free, in order. */
  method TakeFree(f: Flat, c: Choice, k: nat, pos: seq<int>) returns (c': Choice, take: seq<int>)
    requires FlatOk(f) && ChoiceOk(f, c) && forall x :: 0 <= x < |pos| ==> Window(f.slots, pos[x], k)
    ensures ChoiceOk(f, c') && Held(f, c', k, take) && c'.out == c.out && c'.wins == c.wins
    ensures forall x :: 0 <= x < |take| ==> take[x] in pos
    ensures forall x :: 0 <= x < |pos| ==> pos[x] in take || Taken(c'.used, pos[x], k)
  {
    hide FlatOk, ChoiceOk, Held, Mark, Window;
    HeldNone(f, c, k);
    c', take := c, [];
    for i := 0 to |pos|
      invariant ChoiceOk(f, c') && Held(f, c', k, take) && c'.out == c.out && c'.wins == c.wins
      invariant forall x :: 0 <= x < |take| ==> take[x] in pos
      invariant forall x :: 0 <= x < i ==> pos[x] in take || Taken(c'.used, pos[x], k)
    {
      SizesOf(f, c', k, take);
      var p := pos[i];
      WindowInside(f.slots, p, k);
      var free := IsFree(c'.used, p, k);
      if free {
        MarkKeeps(f, c', p, k);
        HeldMore(f, c', k, take, p);
        forall x | 0 <= x < i && Taken(c'.used, pos[x], k) ensures Taken(Mark(c'.used, p, k, true), pos[x], k) {
          TakenStays(c'.used, pos[x], k, p);
        }
        c' := c'.(used := Mark(c'.used, p, k, true));
        take := take + [p];
      }
    }
  }

  lemma HeldNone(f: Flat, c: Choice, k: nat)
    requires FlatOk(f) && ChoiceOk(f, c)
    ensures Held(f, c, k, [])
  {
  }

  lemma {:induction false} SizesOf(f: Flat, c: Choice, k: nat, ps: seq<int>)
    requires Held(f, c, k, ps)
    ensures |c.used| == |f.slots|
  {
  }

  lemma {:induction false} HeldMore(f: Flat, c: Choice, k: nat, ps: seq<int>, p: int)
    requires Held(f, c, k, ps) && Window(f.slots, p, k) && (forall x :: p <= x < p + k ==> !c.used[x])
    requires forall i :: 0 <= i < |c.wins| ==> Disjoint(p, k, c.wins[i].0, c.wins[i].1)
    ensures Held(f, c.(used := Mark(c.used, p, k, true)), k, ps + [p])
  {
    forall x | 0 <= x < |ps| ensures Disjoint(ps[x], k, p, k) {
      forall z | ps[x] <= z < ps[x] + k ensures c.used[z] { assert InWindow(z, ps[x], k); }
      FreeApart(c.used, p, k, ps[x], k);
    }
  }

  /** Adds one site for a helper that says what the occurrence says. */
  lemma {:induction false} SiteMore(f: Flat, c: Choice, k: nat, p: int, rest: seq<int>, h: int)
    requires FlatOk(f) && ChoiceOk(f, c) && k >= 2 && Held(f, c, k, [p] + rest) && 0 <= h < |c.out.helpers|
    requires Window(f.slots, p, k) && c.out.helpers[h].body == Text(f, p, k) && c.out.helpers[h].sec == SecOf(f, p)
    requires c.out.helpers[h].term == TermAt(f, p + k - 1)
    ensures var c' := c.(wins := c.wins + [(p, k)], out := c.out.(sites := c.out.sites + [SiteOf(f, p, k, h)]));
            ChoiceOk(f, c') && Held(f, c', k, rest)
  {
    hide FlatOk, Text, SecOf, TermAt;
    var c' := c.(wins := c.wins + [(p, k)], out := c.out.(sites := c.out.sites + [SiteOf(f, p, k, h)]));
    var ps := [p] + rest;
    assert ps[0] == p;
    forall z | 0 <= z < |c.used| && InWindow(z, p, k) ensures c.used[z] { assert InWindow(z, ps[0], k); }
    HeldFirst(f, c, k, p, rest);
    forall i | 0 <= i < |c'.wins| ensures WinOk(f, c', i) { if i < |c.wins| { assert WinOk(f, c, i); } }
  }

  /** A new helper changes no site. */
  lemma {:induction false} HelperMore(f: Flat, c: Choice, k: nat, ps: seq<int>, h: Helper)
    requires FlatOk(f) && ChoiceOk(f, c) && Held(f, c, k, ps)
    ensures var c' := c.(out := c.out.(helpers := c.out.helpers + [h])); ChoiceOk(f, c') && Held(f, c', k, ps)
  {
    hide FlatOk, Text, SecOf, TermAt, Disjoint, InWindow, Window, SiteOf;
    var c' := c.(out := c.out.(helpers := c.out.helpers + [h]));
    forall i | 0 <= i < |c'.wins| ensures WinOk(f, c', i) { assert WinOk(f, c, i); }
  }

  /** Every occurrence of the group has the helper's text and section. */
  ghost predicate Alike(f: Flat, k: nat, p: int, ps: seq<int>, term: bool)
    requires FlatOk(f)
  {
    forall x :: 0 <= x < |ps| ==>
                  SameText(f, p, ps[x], k) && SecOf(f, ps[x]) == SecOf(f, p) && TermAt(f, ps[x] + k - 1) == term
  }

  lemma {:induction false} AlikeAt(f: Flat, k: nat, p: int, ps: seq<int>, term: bool, x: int)
    requires FlatOk(f) && Alike(f, k, p, ps, term) && 0 <= x < |ps|
    ensures Window(f.slots, p, k) && Window(f.slots, ps[x], k) && Text(f, p, k) == Text(f, ps[x], k)
    ensures SecOf(f, ps[x]) == SecOf(f, p) && TermAt(f, ps[x] + k - 1) == term
  {
    assert SameText(f, p, ps[x], k);
  }

  /** A site of helper h for each occurrence of a group. */
  method AddSites(f: Flat, c: Choice, k: nat, grp: seq<int>, rest: seq<int>, term: bool, h: int) returns (c': Choice)
    requires FlatOk(f) && ChoiceOk(f, c) && k >= 2 && grp != [] && Held(f, c, k, grp + rest)
    requires Alike(f, k, grp[0], grp, term) && Window(f.slots, grp[0], k) && 0 <= h < |c.out.helpers|
    requires c.out.helpers[h] == Helper(Text(f, grp[0], k), SecOf(f, grp[0]), term)
    ensures ChoiceOk(f, c') && Held(f, c', k, rest) && c'.out.helpers == c.out.helpers
    ensures |c'.out.sites| == |c.out.sites| + |grp| && c.out.sites <= c'.out.sites
    ensures forall x :: |c.out.sites| <= x < |c'.out.sites| ==> c'.out.sites[x].helper == h
  {
    hide FlatOk, ChoiceOk, Held, Alike, Text, SecOf, TermAt;
    c' := c;
    assert grp[0..] + rest == grp + rest;
    for i := 0 to |grp|
      invariant ChoiceOk(f, c') && Held(f, c', k, grp[i..] + rest) && c'.out.helpers == c.out.helpers
      invariant |c'.out.sites| == |c.out.sites| + i && c.out.sites <= c'.out.sites
      invariant forall x :: |c.out.sites| <= x < |c'.out.sites| ==> c'.out.sites[x].helper == h
    {
      AlikeAt(f, k, grp[0], grp, term, i);
      assert grp[i..] + rest == [grp[i]] + (grp[i + 1..] + rest);
      SiteMore(f, c', k, grp[i], grp[i + 1..] + rest, h);
      c' := c'.(wins := c'.wins + [(grp[i], k)], out := c'.out.(sites := c'.out.sites + [SiteOf(f, grp[i], k, h)]));
    }
    assert grp[|grp|..] + rest == rest;
  }

  /** One helper and its sites. */
  method Place(f: Flat, c: Choice, k: nat, grp: seq<int>, rest: seq<int>, term: bool) returns (c': Choice)
    requires FlatOk(f) && ChoiceOk(f, c) && k >= 2 && grp != [] && Held(f, c, k, grp + rest)
    requires Alike(f, k, grp[0], grp, term) && AllPay(f.lines, c.out)
    requires Window(f.slots, grp[0], k) && Save(|grp|, BodyRecs(f.lines, Text(f, grp[0], k)), term) > 0
    ensures ChoiceOk(f, c') && Held(f, c', k, rest) && AllPay(f.lines, c'.out)
    ensures Savings(f.lines, c'.out, |c'.out.helpers|) == Savings(f.lines, c.out, |c.out.helpers|)
              + Save(|grp|, BodyRecs(f.lines, Text(f, grp[0], k)), term)
  {
    HelpersInside(f, c);
    hide FlatOk, ChoiceOk, Held, Alike, Text, SecOf, TermAt, AllPay, BodyRecs, Save, Savings;
    var h := |c.out.helpers|;
    var helper := Helper(Text(f, grp[0], k), SecOf(f, grp[0]), term);
    HelperMore(f, c, k, grp + rest, helper);
    c' := c.(out := c.out.(helpers := c.out.helpers + [helper]));
    c' := AddSites(f, c', k, grp, rest, term, h);
    ghost var more := c'.out.sites[|c.out.sites|..];
    assert c'.out.sites == c.out.sites + more;
    GroupPays(f.lines, c.out, helper, more);
  }

  lemma {:induction false} HelpersInside(f: Flat, c: Choice)
    requires FlatOk(f) && ChoiceOk(f, c)
    ensures forall i :: 0 <= i < |c.out.sites| ==> 0 <= c.out.sites[i].helper < |c.out.helpers|
  {
    hide FlatOk, Text;
    forall i | 0 <= i < |c.out.sites| ensures 0 <= c.out.sites[i].helper < |c.out.helpers| { assert WinOk(f, c, i); }
  }

  lemma {:induction false} HeldFirst(f: Flat, c: Choice, k: nat, p: int, rest: seq<int>)
    requires Held(f, c, k, [p] + rest)
    ensures Window(f.slots, p, k) && |c.used| == |f.slots| && Held(f, c, k, rest)
    ensures forall i :: 0 <= i < |c.wins| ==> Disjoint(p, k, c.wins[i].0, c.wins[i].1)
    ensures forall x :: 0 <= x < |rest| ==> Disjoint(p, k, rest[x], k)
  {
    var ps := [p] + rest;
    assert ps[0] == p && forall x :: 0 <= x < |rest| ==> rest[x] == ps[x + 1];
    forall x | 0 <= x < |rest| ensures Disjoint(p, k, rest[x], k) { assert Disjoint(ps[0], k, ps[x + 1], k); }
    forall x, z | 0 <= x < |rest| && 0 <= z < |c.used| && InWindow(z, rest[x], k)
      ensures c.used[z]
    {
      assert InWindow(z, ps[x + 1], k);
    }
  }

  lemma {:induction false} UnmarkHeld(f: Flat, c: Choice, k: nat, p: int, rest: seq<int>)
    requires Held(f, c, k, rest) && Window(f.slots, p, k) && forall x :: 0 <= x < |rest| ==> Disjoint(p, k, rest[x], k)
    ensures Held(f, c.(used := Mark(c.used, p, k, false)), k, rest)
  {
  }

  lemma {:induction false} UnmarkChoice(f: Flat, c: Choice, k: nat, p: int)
    requires FlatOk(f) && ChoiceOk(f, c) && Window(f.slots, p, k)
    requires forall i :: 0 <= i < |c.wins| ==> Disjoint(p, k, c.wins[i].0, c.wins[i].1)
    ensures ChoiceOk(f, c.(used := Mark(c.used, p, k, false)))
  {
    hide Owned, Good;
    var c' := c.(used := Mark(c.used, p, k, false));
    forall i | 0 <= i < |c'.wins| ensures WinOk(f, c', i) { assert WinOk(f, c, i); }
  }

  lemma {:induction false} Unmark(f: Flat, c: Choice, k: nat, p: int, rest: seq<int>)
    requires FlatOk(f) && ChoiceOk(f, c) && Held(f, c, k, [p] + rest)
    ensures Window(f.slots, p, k) && |c.used| == |f.slots|
    ensures ChoiceOk(f, c.(used := Mark(c.used, p, k, false)))
    ensures Held(f, c.(used := Mark(c.used, p, k, false)), k, rest)
  {
    hide FlatOk, ChoiceOk, Held, Mark;
    HeldFirst(f, c, k, p, rest);
    UnmarkHeld(f, c, k, p, rest);
    UnmarkChoice(f, c, k, p);
  }

  /** A group that saves nothing gives its slots back. */
  method Release(f: Flat, c: Choice, k: nat, grp: seq<int>, rest: seq<int>) returns (c': Choice)
    requires FlatOk(f) && ChoiceOk(f, c) && Held(f, c, k, grp + rest)
    ensures ChoiceOk(f, c') && Held(f, c', k, rest) && c'.out == c.out
  {
    hide FlatOk, ChoiceOk, Held, Mark;
    c' := c;
    assert grp[0..] + rest == grp + rest;
    for i := 0 to |grp|
      invariant ChoiceOk(f, c') && Held(f, c', k, grp[i..] + rest) && c'.out == c.out
    {
      assert grp[i..] + rest == [grp[i]] + (grp[i + 1..] + rest);
      Unmark(f, c', k, grp[i], grp[i + 1..] + rest);
      c' := c'.(used := Mark(c'.used, grp[i], k, false));
    }
    assert grp[|grp|..] + rest == rest;
  }

  // ----- one helper per section -----

  /** The occurrences in a section, or those in the others. */
  function Pick(f: Flat, ps: seq<int>, sec: int, inside: bool): (r: seq<int>)
    requires FlatOk(f) && forall x :: 0 <= x < |ps| ==> 0 <= ps[x] < |f.slots|
    ensures |r| <= |ps|
    ensures forall y :: 0 <= y < |r| ==> r[y] in ps && 0 <= r[y] < |f.slots| && (SecOf(f, r[y]) == sec) == inside
  {
    if ps == [] then []
    else
      var n := |ps| - 1;
      var q := Pick(f, ps[..n], sec, inside);
      if (SecOf(f, ps[n]) == sec) == inside then q + [ps[n]] else q
  }

  lemma {:induction false} HeldInsert(f: Flat, c: Choice, k: nat, a: seq<int>, b: seq<int>, p: int)
    requires Held(f, c, k, a + b) && Window(f.slots, p, k)
    requires forall y :: 0 <= y < |a + b| ==> Disjoint(p, k, (a + b)[y], k)
    requires forall i :: 0 <= i < |c.wins| ==> Disjoint(p, k, c.wins[i].0, c.wins[i].1)
    requires forall z :: 0 <= z < |c.used| && InWindow(z, p, k) ==> c.used[z]
    ensures Held(f, c, k, a + [p] + b)
  {
    var s, r := a + b, a + [p] + b;
    var n := |a|;
    assert r[n] == p && (forall y :: 0 <= y < n ==> r[y] == s[y]) && forall y :: n < y < |r| ==> r[y] == s[y - 1];
    forall x, y | 0 <= x < y < |r| ensures Disjoint(r[x], k, r[y], k) {
      if x == n { assert Disjoint(p, k, s[y - 1], k); } else if y == n { assert Disjoint(p, k, s[x], k); } else {
        assert Disjoint(s[if x < n then x else x - 1], k, s[if y < n then y else y - 1], k);
      }
    }
    forall x, z | 0 <= x < |r| && 0 <= z < |c.used| && InWindow(z, r[x], k) ensures c.used[z] {
      if x != n { assert InWindow(z, s[if x < n then x else x - 1], k); }
    }
  }

  lemma {:induction false} HeldPrefix(f: Flat, c: Choice, k: nat, ps: seq<int>)
    requires Held(f, c, k, ps) && ps != []
    ensures var n := |ps| - 1;
            && Held(f, c, k, ps[..n]) && Window(f.slots, ps[n], k)
                && (forall x :: 0 <= x < n ==> Disjoint(ps[n], k, ps[x], k))
            && (forall i :: 0 <= i < |c.wins| ==> Disjoint(ps[n], k, c.wins[i].0, c.wins[i].1))
                && forall z :: 0 <= z < |c.used| && InWindow(z, ps[n], k) ==> c.used[z]
  {
    var n := |ps| - 1;
    forall x | 0 <= x < n ensures Disjoint(ps[n], k, ps[x], k) { assert Disjoint(ps[x], k, ps[n], k); }
  }

  lemma {:induction false} HeldInside(f: Flat, c: Choice, k: nat, ps: seq<int>)
    requires Held(f, c, k, ps)
    ensures forall x :: 0 <= x < |ps| ==> 0 <= ps[x] < |f.slots|
  {
    forall x | 0 <= x < |ps| ensures 0 <= ps[x] < |f.slots| { assert Window(f.slots, ps[x], k); }
  }

  lemma {:induction false} PickedApart(ps: seq<int>, r: seq<int>, p: int, k: nat)
    requires (forall y :: 0 <= y < |r| ==> r[y] in ps) && forall x :: 0 <= x < |ps| ==> Disjoint(p, k, ps[x], k)
    ensures forall y :: 0 <= y < |r| ==> Disjoint(p, k, r[y], k)
  {
    forall y | 0 <= y < |r| ensures Disjoint(p, k, r[y], k) {
      var x :| 0 <= x < |ps| && ps[x] == r[y];
    }
  }

  lemma {:induction false} HeldAppend(f: Flat, c: Choice, k: nat, a: seq<int>, b: seq<int>, p: int)
    requires Held(f, c, k, a + b) && Held(f, c, k, (a + b) + [p] + [])
    ensures Held(f, c, k, a + (b + [p]))
  {
    assert (a + b) + [p] + [] == a + (b + [p]);
  }

  /** Sorting occurrences by section keeps them held. */
  lemma {:induction false} HeldSplit(f: Flat, c: Choice, k: nat, ps: seq<int>, sec: int)
    requires FlatOk(f) && Held(f, c, k, ps) && forall x :: 0 <= x < |ps| ==> 0 <= ps[x] < |f.slots|
    ensures Held(f, c, k, Pick(f, ps, sec, true) + Pick(f, ps, sec, false))
    decreases |ps|
  {
    hide Held, FlatOk, SecOf, Window, Disjoint, InWindow;
    if ps != [] {
      HeldPrefix(f, c, k, ps);
      var n := |ps| - 1;
      HeldSplit(f, c, k, ps[..n], sec);
      var a, b := Pick(f, ps[..n], sec, true), Pick(f, ps[..n], sec, false);
      PickedApart(ps[..n], a + b, ps[n], k);
      if SecOf(f, ps[n]) == sec {
        HeldInsert(f, c, k, a, b, ps[n]);
      } else {
        assert (a + b) + [] == a + b;
        HeldInsert(f, c, k, a + b, [], ps[n]);
        HeldAppend(f, c, k, a, b, ps[n]);
      }
    } else {
      assert Pick(f, ps, sec, true) + Pick(f, ps, sec, false) == ps;
    }
  }

  lemma {:induction false} PickedAlike(f: Flat, c: Cand, ps: seq<int>, sec: int)
    requires FlatOk(f) && CandOk(f, c) && (forall x :: 0 <= x < |ps| ==> ps[x] in c.pos && 0 <= ps[x] < |f.slots|)
    ensures var grp := Pick(f, ps, sec, true); grp != [] ==> Alike(f, c.k, grp[0], grp, c.term)
  {
    hide FlatOk, CandOk, SecOf, TermAt, Text;
    var grp := Pick(f, ps, sec, true);
    if grp != [] {
      forall y | 0 <= y < |grp|
        ensures SameText(f, grp[0], grp[y], c.k) && SecOf(f, grp[y]) == SecOf(f, grp[0])
        ensures TermAt(f, grp[y] + c.k - 1) == c.term
      {
        PickedFrom(ps, c.pos, grp[0]);
        PickedFrom(ps, c.pos, grp[y]);
        OccurrenceIs(f, c, grp[0]);
        OccurrenceIs(f, c, grp[y]);
      }
    }
  }

  lemma PickedFrom(ps: seq<int>, pos: seq<int>, p: int)
    requires p in ps && forall x :: 0 <= x < |ps| ==> ps[x] in pos
    ensures p in pos
  {
  }

  lemma {:induction false} LastText(f: Flat, p: int, k: nat)
    requires FlatOk(f) && Window(f.slots, p, k)
    ensures Text(f, p, k)[k - 1] == SlotId(f, p + k - 1)
  {
    hide FlatOk, SlotId;
  }

  lemma {:induction false} OccurrenceIs(f: Flat, c: Cand, p: int)
    requires FlatOk(f) && CandOk(f, c) && p in c.pos
    ensures SameText(f, c.pos[0], p, c.k) && TermAt(f, p + c.k - 1) == c.term
  {
    hide FlatOk, SlotId, TermAt, Text;
    var x :| 0 <= x < |c.pos| && c.pos[x] == p;
    assert SameText(f, c.pos[0], c.pos[x], c.k);
    LastText(f, c.pos[0], c.k);
    LastText(f, p, c.k);
    SameTerm(f, c.pos[0] + c.k - 1, p + c.k - 1);
  }

  lemma {:induction false} SameTerm(f: Flat, p: int, q: int)
    requires FlatOk(f) && 0 <= p < |f.slots| && 0 <= q < |f.slots| && SlotId(f, p) == SlotId(f, q)
    ensures TermAt(f, p) == TermAt(f, q)
  {
    hide RunsOk;
    var i, j := LineOf(f.runs, f.slots[p]), LineOf(f.runs, f.slots[q]);
    assert f.lines[i].id == f.lines[j].id;
  }

  lemma {:induction false} OccurrenceRecs(f: Flat, c: Cand, p: int)
    requires FlatOk(f) && CandOk(f, c) && p in c.pos
    ensures Window(f.slots, p, c.k) && c.recs == BodyRecs(f.lines, Text(f, p, c.k))
  {
    hide FlatOk, Text, BodyRecs;
    var x :| 0 <= x < |c.pos| && c.pos[x] == p;
    assert SameText(f, c.pos[0], c.pos[x], c.k);
  }

  /** Commits one candidate: the free occurrences, a helper per section, and the groups that do not
      pay released. */
  method Choose(f: Flat, c: Choice, cand: Cand, saved: int) returns (c': Choice, saved': int)
    requires FlatOk(f) && ChoiceOk(f, c) && CandOk(f, cand) && AllPay(f.lines, c.out)
    requires saved == Savings(f.lines, c.out, |c.out.helpers|)
    ensures ChoiceOk(f, c') && AllPay(f.lines, c'.out)
    ensures saved' == Savings(f.lines, c'.out, |c'.out.helpers|)
  {
    hide FlatOk, ChoiceOk, Held, Alike, Pick, SecOf, AllPay, BodyRecs, CandOk, Savings;
    saved' := saved;
    CandWindows(f, cand);
    var todo;
    c', todo := TakeFree(f, c, cand.k, cand.pos);
    while todo != []
      invariant ChoiceOk(f, c') && Held(f, c', cand.k, todo) && AllPay(f.lines, c'.out)
      invariant saved' == Savings(f.lines, c'.out, |c'.out.helpers|)
      invariant forall x :: 0 <= x < |todo| ==> todo[x] in cand.pos
      decreases |todo|
    {
      HeldInside(f, c', cand.k, todo);
      var sec := SecOf(f, todo[0]);
      var grp, rest := Pick(f, todo, sec, true), Pick(f, todo, sec, false);
      HeldSplit(f, c', cand.k, todo, sec);
      PickedAlike(f, cand, todo, sec);
      FirstPicked(f, todo);
      var sv := Save(|grp|, cand.recs, cand.term);
      if sv > 0 {
        PickedFrom(todo, cand.pos, grp[0]);
        OccurrenceRecs(f, cand, grp[0]);
        c' := Place(f, c', cand.k, grp, rest, cand.term);
        saved' := saved' + sv;
      } else {
        c' := Release(f, c', cand.k, grp, rest);
      }
      todo := rest;
    }
  }

  lemma {:induction false} CandWindows(f: Flat, c: Cand)
    requires FlatOk(f) && CandOk(f, c)
    ensures c.k >= 2 && forall x :: 0 <= x < |c.pos| ==> Window(f.slots, c.pos[x], c.k)
  {
    forall x | 0 <= x < |c.pos| ensures Window(f.slots, c.pos[x], c.k) { assert SameText(f, c.pos[0], c.pos[x], c.k); }
  }

  /** The first occurrence is in its own section's group, so the others are fewer. */
  lemma {:induction false} FirstPicked(f: Flat, ps: seq<int>)
    requires FlatOk(f) && ps != [] && forall x :: 0 <= x < |ps| ==> 0 <= ps[x] < |f.slots|
    ensures Pick(f, ps, SecOf(f, ps[0]), true) != [] && |Pick(f, ps, SecOf(f, ps[0]), false)| < |ps|
    decreases |ps|
  {
    if |ps| > 1 { FirstPicked(f, ps[..|ps| - 1]); }
  }

  /** The whole choice, for any candidates in any order: a rewriting with disjoint, well-formed
      sites, each served by a helper of its own section. */
  method ChooseAll(f: Flat, cands: seq<Cand>) returns (o: Outlined, saved: int)
    requires FlatOk(f) && forall x :: 0 <= x < |cands| ==> CandOk(f, cands[x])
    ensures OutlinedOk(f.lines, o) && AllPay(f.lines, o) && saved == Savings(f.lines, o, |o.helpers|)
  {
    saved := 0;
    var c := Choice(seq(|f.slots|, _ => false), Outlined([], []), []);
    for x := 0 to |cands|
      invariant ChoiceOk(f, c) && AllPay(f.lines, c.out) && saved == Savings(f.lines, c.out, |c.out.helpers|)
    {
      hide FlatOk, ChoiceOk, AllPay, Savings;
      c, saved := Choose(f, c, cands[x], saved);
    }
    ChoiceOutlines(f, c);
    o := c.out;
  }

  /** The whole pass: its result is a rewriting the program runs unchanged on, and the saving it
      reports is the difference in size. */
  method Outline(lines: seq<Line>) returns (o: Outlined, saved: int)
    requires Sections(lines)
    requires TextDecides(lines)
    ensures OutlinedOk(lines, o) && AllPay(lines, o)
    ensures forall i :: 0 <= i < |o.sites| ==> 0 <= o.sites[i].helper < |o.helpers|
    ensures saved == Before(lines) - After(lines, o)
  {
    var runs := Runs(lines);
    forall r | 0 <= r < |runs| ensures |runs[r].at| > 0 { assert RunOk(lines, runs[r]); }
    var slots := Flatten(runs);
    FlatFrom(lines, runs, slots);
    var f := Flat(lines, runs, slots);
    hide FlatOk, CandOk, RunsOk, Sections, TextDecides, OutlinedOk, AllPay, Savings, Before, After;
    var order := SortSuffixes(f);
    var cands := Mine(f, order);
    cands := BestFirst(f, cands);
    o, saved := ChooseAll(f, cands);
    SizeBalances(lines, o);
  }
}
