/** What outlining costs and saves (host/dmacc/outline.go): helpers that pay for themselves, and the size
    of the program before and after. */
module Sizes {
  import opened Outliner
  import opened Outlining

  // ----- prices -----

  /** The line is an instruction with this text. */
  predicate Says(lines: seq<Line>, i: int, id: int) {
    0 <= i < |lines| && lines[i].Instr? && lines[i].id == id
  }

  /** The records an instruction text assembles to. */
  ghost function RecsOfId(lines: seq<Line>, id: int): nat {
    if exists i :: Says(lines, i, id) then
      var i :| Says(lines, i, id); lines[i].recs
    else 0
  }

  lemma {:induction false} RecsOfLine(lines: seq<Line>, i: int)
    requires TextDecides(lines) && 0 <= i < |lines| && lines[i].Instr?
    ensures RecsOfId(lines, lines[i].id) == lines[i].recs
  {
    assert Says(lines, i, lines[i].id);
  }

  ghost function BodyRecs(lines: seq<Line>, body: seq<int>): nat {
    if body == [] then 0 else BodyRecs(lines, body[..|body| - 1]) + RecsOfId(lines, body[|body| - 1])
  }

  /** The records of the instructions of lines a to b. */
  function RangeRecs(lines: seq<Line>, a: int, b: int): nat
    requires 0 <= a <= b <= |lines|
    decreases b
  {
    if a == b then 0 else RangeRecs(lines, a, b - 1) + if lines[b - 1].Instr? then lines[b - 1].recs else 0
  }

  lemma {:induction false} RangeIs(lines: seq<Line>, a: int, b: int)
    requires TextDecides(lines) && 0 <= a <= b <= |lines|
    ensures RangeRecs(lines, a, b) == BodyRecs(lines, Ids(lines, a, b))
    decreases b
  {
    hide TextDecides, RecsOfId;
    if a < b {
      RangeIs(lines, a, b - 1);
      if lines[b - 1].Instr? {
        RecsOfLine(lines, b - 1);
        var ids := Ids(lines, a, b);
        assert ids[..|ids| - 1] == Ids(lines, a, b - 1);
      } else {
        assert Ids(lines, a, b) == Ids(lines, a, b - 1);
      }
    }
  }

  function SitesOf(sites: seq<Site>, h: int): nat {
    if sites == [] then 0
    else SitesOf(sites[..|sites| - 1], h) + if sites[|sites| - 1].helper == h then 1 else 0
  }

  /** A record is eight bytes and a pool word four. A site jumps to its helper, after parking its
      return address, a pool word, unless the body ends by transferring control. */
  function SitePrice(term: bool): nat {
    if term then 8 else 2 * 8 + 4
  }

  /** The body, the jump back unless there is none, and the pool word of the helper's address. */
  function HelperPrice(recs: nat, term: bool): nat {
    8 * recs + (if term then 0 else 8) + 4
  }

  /** The helper has several sites, and they and it are cheaper than the copies they replace. */
  ghost predicate Pays(lines: seq<Line>, o: Outlined, h: int)
    requires 0 <= h < |o.helpers|
  {
    var n, recs, term := SitesOf(o.sites, h), BodyRecs(lines, o.helpers[h].body), o.helpers[h].term;
    n >= 2 && n * SitePrice(term) + HelperPrice(recs, term) < n * (8 * recs)
  }

  ghost predicate AllPay(lines: seq<Line>, o: Outlined) {
    forall h :: 0 <= h < |o.helpers| ==> Pays(lines, o, h)
  }

  /** What the pass reports for the first n helpers. */
  ghost function Savings(lines: seq<Line>, o: Outlined, n: nat): int
    requires n <= |o.helpers|
  {
    if n == 0 then 0
    else
      var h := n - 1;
      Savings(lines, o, h) + Save(SitesOf(o.sites, h), BodyRecs(lines, o.helpers[h].body), o.helpers[h].term)
  }

  /** What the code calls the saving is the copies' price less the sites' and the helper's. */
  lemma {:induction false} SaveIs(n: nat, recs: nat, term: bool)
    ensures n >= 2 ==> Save(n, recs, term) == n * (8 * recs) - n * SitePrice(term) - HelperPrice(recs, term)
  {
  }

  lemma {:induction false} SitesJoin(a: seq<Site>, b: seq<Site>, h: int)
    ensures SitesOf(a + b, h) == SitesOf(a, h) + SitesOf(b, h)
    decreases |b|
  {
    if b == [] {
      assert a + b == a;
    } else {
      var n := |b| - 1;
      SitesJoin(a, b[..n], h);
      assert (a + b)[..|a + b| - 1] == a + b[..n];
    }
  }

  lemma {:induction false} SitesEach(s: seq<Site>, h: int, all: bool)
    requires forall i :: 0 <= i < |s| ==> (s[i].helper == h) == all
    ensures SitesOf(s, h) == if all then |s| else 0
    decreases |s|
  {
    if s != [] { SitesEach(s[..|s| - 1], h, all); }
  }

  lemma LastSaving(lines: seq<Line>, o: Outlined, h: nat)
    requires h < |o.helpers|
    ensures Savings(lines, o, h + 1) == Savings(lines, o, h)
              + Save(SitesOf(o.sites, h), BodyRecs(lines, o.helpers[h].body), o.helpers[h].term)
  {
  }

  lemma SavingTwo(n: nat, recs: nat, term: bool)
    requires Save(n, recs, term) > 0
    ensures n >= 2
  {
  }

  lemma {:induction false} SavingsMore(lines: seq<Line>, o: Outlined, helper: Helper, more: seq<Site>, n: nat)
    requires n <= |o.helpers| && forall i :: 0 <= i < |more| ==> more[i].helper == |o.helpers|
    ensures Savings(lines, Outlined(o.sites + more, o.helpers + [helper]), n) == Savings(lines, o, n)
    decreases n
  {
    hide Save, BodyRecs;
    if n > 0 {
      SavingsMore(lines, o, helper, more, n - 1);
      SitesJoin(o.sites, more, n - 1);
      SitesEach(more, n - 1, false);
    }
  }

  /** Sites of a new helper: it pays when its group does, and the others still do. */
  lemma {:induction false} GroupPays(lines: seq<Line>, o: Outlined, helper: Helper, more: seq<Site>)
    requires AllPay(lines, o) && Save(|more|, BodyRecs(lines, helper.body), helper.term) > 0
    requires forall i :: 0 <= i < |o.sites| ==> 0 <= o.sites[i].helper < |o.helpers|
    requires forall i :: 0 <= i < |more| ==> more[i].helper == |o.helpers|
    ensures AllPay(lines, Outlined(o.sites + more, o.helpers + [helper]))
    ensures Savings(lines, Outlined(o.sites + more, o.helpers + [helper]), |o.helpers| + 1)
              == Savings(lines, o, |o.helpers|) + Save(|more|, BodyRecs(lines, helper.body), helper.term)
  {
    SavingsMore(lines, o, helper, more, |o.helpers|);
    var o' := Outlined(o.sites + more, o.helpers + [helper]);
    hide BodyRecs, SitePrice, HelperPrice, Save, Savings;
    SitesJoin(o.sites, more, |o.helpers|);
    SitesEach(more, |o.helpers|, true);
    SitesEach(o.sites, |o.helpers|, false);
    LastSaving(lines, o', |o.helpers|);
    forall h | 0 <= h < |o'.helpers| ensures Pays(lines, o', h) {
      SitesJoin(o.sites, more, h);
      SitesEach(more, h, h == |o.helpers|);
      if h < |o.helpers| {
        assert Pays(lines, o, h) && o'.helpers[h] == o.helpers[h];
      } else {
        SavingTwo(|more|, BodyRecs(lines, helper.body), helper.term);
        SaveIs(|more|, BodyRecs(lines, helper.body), helper.term);
      }
    }
  }

  /** Bytes saved by n copies of a body: the code's price in records and pool words. */
  function Save(n: nat, recs: nat, term: bool): int {
    if n < 2 then 0
    else if term then 8 * (n * recs - n - recs) - 4
    else 8 * (n * recs - 2 * n - recs - 1) - 4 * n - 4
  }

  // ----- the size of the program -----

  ghost predicate InSite(sites: seq<Site>, i: int) {
    exists x :: 0 <= x < |sites| && sites[x].first <= i <= sites[x].last
  }

  /** The records of the first n lines that stay where they are. */
  ghost function Kept(lines: seq<Line>, sites: seq<Site>, n: nat): nat
    requires n <= |lines|
  {
    if n == 0 then 0
    else Kept(lines, sites, n - 1) + if lines[n - 1].Instr? && !InSite(sites, n - 1) then lines[n - 1].recs else 0
  }

  ghost function SitePrices(o: Outlined, n: nat): nat
    requires n <= |o.sites| && forall i :: 0 <= i < |o.sites| ==> 0 <= o.sites[i].helper < |o.helpers|
  {
    if n == 0 then 0 else SitePrices(o, n - 1) + SitePrice(o.helpers[o.sites[n - 1].helper].term)
  }

  ghost function HelperPrices(lines: seq<Line>, o: Outlined, n: nat): nat
    requires n <= |o.helpers|
  {
    if n == 0 then 0
    else HelperPrices(lines, o, n - 1) + HelperPrice(BodyRecs(lines, o.helpers[n - 1].body), o.helpers[n - 1].term)
  }

  /** Bytes of code before and after: records, and the pool words the rewriting adds. */
  function Before(lines: seq<Line>): nat {
    8 * RangeRecs(lines, 0, |lines|)
  }

  ghost function After(lines: seq<Line>, o: Outlined): nat
    requires forall i :: 0 <= i < |o.sites| ==> 0 <= o.sites[i].helper < |o.helpers|
  {
    8 * Kept(lines, o.sites, |lines|) + SitePrices(o, |o.sites|) + HelperPrices(lines, o, |o.helpers|)
  }

  /** Ranges inside the program that do not meet. */
  ghost predicate Spread(lines: seq<Line>, sites: seq<Site>) {
    && (forall i :: 0 <= i < |sites| ==> 0 <= sites[i].first <= sites[i].last < |lines|)
    && forall i, j :: 0 <= i < j < |sites| ==> sites[i].last < sites[j].first || sites[j].last < sites[i].first
  }

  ghost function Removed(lines: seq<Line>, sites: seq<Site>): nat
    requires Spread(lines, sites)
  {
    if sites == [] then 0
    else
      var s := sites[|sites| - 1];
      Removed(lines, sites[..|sites| - 1]) + RangeRecs(lines, s.first, s.last + 1)
  }

  lemma {:induction false} InSiteMore(sites: seq<Site>, s: Site, i: int)
    ensures InSite(sites + [s], i) <==> InSite(sites, i) || s.first <= i <= s.last
  {
    var all := sites + [s];
    if InSite(sites, i) {
      var x :| 0 <= x < |sites| && sites[x].first <= i <= sites[x].last;
      assert all[x] == sites[x];
    } else if s.first <= i <= s.last {
      assert all[|sites|] == s;
    }
    forall x | 0 <= x < |all| && all[x].first <= i <= all[x].last
      ensures InSite(sites, i) || s.first <= i <= s.last
    {
      if x < |sites| { assert all[x] == sites[x]; }
    }
  }

  /** One more site takes its own records out. */
  lemma {:induction false} KeptLess(lines: seq<Line>, sites: seq<Site>, s: Site, n: nat)
    requires Spread(lines, sites + [s]) && n <= |lines|
    ensures 0 <= s.first <= s.last < |lines|
    ensures Kept(lines, sites, n) == Kept(lines, sites + [s], n)
              + if n <= s.first then 0 else RangeRecs(lines, s.first, if n <= s.last then n else s.last + 1)
    decreases n
  {
    var all := sites + [s];
    assert all[|sites|] == s;
    if n > 0 {
      KeptLess(lines, sites, s, n - 1);
      InSiteMore(sites, s, n - 1);
      if s.first <= n - 1 <= s.last {
        forall x | 0 <= x < |sites| ensures !(sites[x].first <= n - 1 <= sites[x].last) {
          assert all[x] == sites[x];
          assert all[x].last < all[|sites|].first || all[|sites|].last < all[x].first;
        }
      }
    }
  }

  lemma {:induction false} NothingRemoved(lines: seq<Line>, n: nat)
    requires n <= |lines|
    ensures Kept(lines, [], n) == RangeRecs(lines, 0, n)
    decreases n
  {
    if n > 0 { NothingRemoved(lines, n - 1); }
  }

  lemma {:induction false} KeptAndRemoved(lines: seq<Line>, sites: seq<Site>)
    requires Spread(lines, sites)
    ensures Kept(lines, sites, |lines|) + Removed(lines, sites) == RangeRecs(lines, 0, |lines|)
    decreases |sites|
  {
    hide Kept, RangeRecs;
    if sites == [] {
      NothingRemoved(lines, |lines|);
    } else {
      var rest, s := sites[..|sites| - 1], sites[|sites| - 1];
      assert rest + [s] == sites;
      KeptAndRemoved(lines, rest);
      KeptLess(lines, rest, s, |lines|);
    }
  }

  /** What one site gains, before its helper is paid for. */
  ghost function Gain(lines: seq<Line>, h: Helper): int {
    8 * BodyRecs(lines, h.body) - SitePrice(h.term)
  }

  ghost function Gains(lines: seq<Line>, helpers: seq<Helper>, sites: seq<Site>): int
    requires forall i :: 0 <= i < |sites| ==> 0 <= sites[i].helper < |helpers|
  {
    if sites == [] then 0
    else Gains(lines, helpers, sites[..|sites| - 1]) + Gain(lines, helpers[sites[|sites| - 1].helper])
  }

  ghost function ByHelper(lines: seq<Line>, helpers: seq<Helper>, sites: seq<Site>, n: nat): int
    requires n <= |helpers|
  {
    if n == 0 then 0
    else ByHelper(lines, helpers, sites, n - 1) + SitesOf(sites, n - 1) * Gain(lines, helpers[n - 1])
  }

  lemma {:induction false} ByHelperMore(lines: seq<Line>, helpers: seq<Helper>, sites: seq<Site>, n: nat)
    requires n <= |helpers| && sites != [] && 0 <= sites[|sites| - 1].helper < |helpers|
    ensures var h := sites[|sites| - 1].helper;
            ByHelper(lines, helpers, sites, n) == ByHelper(lines, helpers, sites[..|sites| - 1], n)
              + if h < n then Gain(lines, helpers[h]) else 0
    decreases n
  {
    hide Gain;
    if n > 0 {
      ByHelperMore(lines, helpers, sites, n - 1);
      var h, g := n - 1, Gain(lines, helpers[n - 1]);
      OneMoreTimes(SitesOf(sites[..|sites| - 1], h), g);
    }
  }

  lemma OneMoreTimes(n: nat, g: int)
    ensures (n + 1) * g == n * g + g
  {
  }

  lemma {:induction false} NoGains(lines: seq<Line>, helpers: seq<Helper>, n: nat)
    requires n <= |helpers|
    ensures ByHelper(lines, helpers, [], n) == 0
    decreases n
  {
    if n > 0 { NoGains(lines, helpers, n - 1); }
  }

  /** Summed site by site or helper by helper, the gains are the same. */
  lemma {:induction false} GainsByHelper(lines: seq<Line>, helpers: seq<Helper>, sites: seq<Site>)
    requires forall i :: 0 <= i < |sites| ==> 0 <= sites[i].helper < |helpers|
    ensures Gains(lines, helpers, sites) == ByHelper(lines, helpers, sites, |helpers|)
    decreases |sites|
  {
    hide Gain;
    if sites == [] {
      NoGains(lines, helpers, |helpers|);
    } else {
      GainsByHelper(lines, helpers, sites[..|sites| - 1]);
      ByHelperMore(lines, helpers, sites, |helpers|);
    }
  }

  ghost predicate Served(lines: seq<Line>, helpers: seq<Helper>, sites: seq<Site>)
    requires Spread(lines, sites)
  {
    forall i :: 0 <= i < |sites| ==>
                  && 0 <= sites[i].helper < |helpers|
                  && RangeRecs(lines, sites[i].first, sites[i].last + 1)
                     == BodyRecs(lines, helpers[sites[i].helper].body)
  }

  lemma {:induction false} SiteGains(lines: seq<Line>, o: Outlined, n: nat)
    requires Spread(lines, o.sites) && Served(lines, o.helpers, o.sites) && n <= |o.sites|
    ensures Spread(lines, o.sites[..n])
    ensures 8 * Removed(lines, o.sites[..n]) - SitePrices(o, n) == Gains(lines, o.helpers, o.sites[..n])
    decreases n
  {
    hide RangeRecs, BodyRecs, SitePrice;
    if n > 0 {
      SiteGains(lines, o, n - 1);
      var s := o.sites[..n];
      assert s[..|s| - 1] == o.sites[..n - 1] && s[|s| - 1] == o.sites[n - 1];
    }
  }

  lemma {:induction false} HelperGains(lines: seq<Line>, o: Outlined, n: nat)
    requires n <= |o.helpers| && AllPay(lines, o)
    ensures ByHelper(lines, o.helpers, o.sites, n) - HelperPrices(lines, o, n) == Savings(lines, o, n)
    ensures n > 0 ==> Savings(lines, o, n) > 0
    ensures Savings(lines, o, n) >= 0
    decreases n
  {
    if n > 0 {
      var h := n - 1;
      HelperGains(lines, o, h);
      assert Pays(lines, o, h);
      var m, recs, term := SitesOf(o.sites, h), BodyRecs(lines, o.helpers[h].body), o.helpers[h].term;
      hide SitesOf, BodyRecs;
      SaveIs(m, recs, term);
      TimesLess(m, 8 * recs, SitePrice(term));
    }
  }

  lemma TimesLess(n: nat, a: int, b: int)
    ensures n * (a - b) == n * a - n * b
  {
  }

  lemma {:induction false} AllServed(lines: seq<Line>, o: Outlined)
    requires TextDecides(lines) && OutlinedOk(lines, o)
    ensures Spread(lines, o.sites) && Served(lines, o.helpers, o.sites)
  {
    hide Owned, RangeRecs, BodyRecs, TextDecides;
    forall i | 0 <= i < |o.sites|
      ensures 0 <= o.sites[i].first <= o.sites[i].last < |lines| && 0 <= o.sites[i].helper < |o.helpers|
      ensures RangeRecs(lines, o.sites[i].first, o.sites[i].last + 1)
                == BodyRecs(lines, o.helpers[o.sites[i].helper].body)
    {
      assert SiteOk(lines, o, o.sites[i]);
      RangeIs(lines, o.sites[i].first, o.sites[i].last + 1);
    }
  }

  /** The reported saving is the difference in size, and outlining anything makes the program smaller. */
  lemma {:induction false} SizeBalances(lines: seq<Line>, o: Outlined)
    requires TextDecides(lines) && OutlinedOk(lines, o) && AllPay(lines, o)
    ensures forall i :: 0 <= i < |o.sites| ==> 0 <= o.sites[i].helper < |o.helpers|
    ensures Before(lines) - After(lines, o) == Savings(lines, o, |o.helpers|)
    ensures o.helpers != [] ==> After(lines, o) < Before(lines)
  {
    AllServed(lines, o);
    hide OutlinedOk, TextDecides, AllPay, SitePrices, HelperPrices, Gains, ByHelper, Savings, Kept, RangeRecs, Removed;
    KeptAndRemoved(lines, o.sites);
    SiteGains(lines, o, |o.sites|);
    assert o.sites[..|o.sites|] == o.sites;
    GainsByHelper(lines, o.helpers, o.sites);
    HelperGains(lines, o, |o.helpers|);
  }
}
