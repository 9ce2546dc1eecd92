/** Block graphs of functions, paths from the entry, and dominance as a statement about paths. */
module Cfg {

  /** Successors of every block; block 0 is the entry. */
  type Graph = seq<seq<int>>

  predicate Valid(g: Graph) {
    |g| > 0 && forall b, i :: 0 <= b < |g| && 0 <= i < |g[b]| ==> 0 <= g[b][i] < |g|
  }

  predicate Edge(g: Graph, a: int, b: int) {
    0 <= a < |g| && b in g[a]
  }

  predicate Trail(g: Graph, p: seq<int>) {
    |p| > 0 && (forall i :: 0 <= i < |p| ==> 0 <= p[i] < |g|) && forall i :: 0 < i < |p| ==> Edge(g, p[i - 1], p[i])
  }

  function Last(p: seq<int>): int
    requires |p| > 0
  {
    p[|p| - 1]
  }

  /** A trail from the entry. */
  predicate Path(g: Graph, p: seq<int>) {
    Trail(g, p) && p[0] == 0
  }

  predicate PathTo(g: Graph, p: seq<int>, b: int) {
    Path(g, p) && Last(p) == b
  }

  ghost predicate Reached(g: Graph, b: int) {
    exists p :: PathTo(g, p, b)
  }

  /** Every path from the entry to b passes a. */
  ghost predicate Dominates(g: Graph, a: int, b: int) {
    forall p :: PathTo(g, p, b) ==> a in p
  }

  lemma {:induction false} Prefix(g: Graph, p: seq<int>, i: nat)
    requires Path(g, p) && i < |p|
    ensures PathTo(g, p[..i + 1], p[i])
  {
  }

  /** Two trails that share a block. */
  lemma {:induction false} Join(g: Graph, p: seq<int>, q: seq<int>)
    requires Trail(g, p) && Trail(g, q) && Last(p) == q[0]
    ensures Trail(g, p + q[1..]) && Last(p + q[1..]) == Last(q) && (p + q[1..])[0] == p[0]
  {
    var r := p + q[1..];
    forall i | 0 < i < |r| ensures Edge(g, r[i - 1], r[i]) {
      if i >= |p| { assert r[i] == q[i - |p| + 1] && r[i - 1] == q[i - |p|]; }
    }
  }

  lemma {:induction false} DominatesTrans(g: Graph, a: int, b: int, c: int)
    requires Dominates(g, a, b) && Dominates(g, b, c)
    ensures Dominates(g, a, c)
  {
    forall p | PathTo(g, p, c) ensures a in p {
      var i :| 0 <= i < |p| && p[i] == b;
      Prefix(g, p, i);
      assert a in p[..i + 1];
    }
  }

  lemma {:induction false} FirstAt(p: seq<int>, a: int) returns (i: nat)
    requires a in p
    ensures i < |p| && p[i] == a && a !in p[..i]
  {
    i := 0;
    while p[i] != a
      invariant i < |p| && a !in p[..i] && a in p
      decreases |p| - i
    {
      assert p[..i + 1] == p[..i] + [p[i]];
      i := i + 1;
    }
  }

  /** The first arrival at a dominator of b has not passed b. */
  lemma {:induction false} FirstArrival(g: Graph, p: seq<int>, a: int, b: int) returns (q: seq<int>)
    requires PathTo(g, p, a) && Dominates(g, a, b) && a != b
    ensures PathTo(g, q, a) && b !in q
  {
    var i := FirstAt(p, a);
    q := p[..i + 1];
    Prefix(g, p, i);
    forall j | 0 <= j < i ensures p[j] != b {
      if p[j] == b {
        Prefix(g, p, j);
        assert false;
      }
    }
  }

  /** No trail leads from a dominator of b to a block b dominates without passing b: what a block
      saw of a's value is what b saw. */
  lemma {:induction false} NoWayAround(g: Graph, p: seq<int>, a: int, b: int, c: int, q: seq<int>)
    requires PathTo(g, p, a) && Dominates(g, a, b) && Dominates(g, b, c) && a != b
    requires Trail(g, q) && q[0] == a && Last(q) == c
    ensures b in q
  {
    var r := FirstArrival(g, p, a, b);
    Join(g, r, q);
    assert PathTo(g, r + q[1..], c);
  }

  /** Of two reached blocks, each dominating the other, there is one. */
  lemma {:induction false} DominatesOnce(g: Graph, a: int, b: int)
    requires Reached(g, a) && Dominates(g, a, b) && Dominates(g, b, a)
    ensures a == b
  {
    if a != b {
      var p :| PathTo(g, p, a);
      var q := FirstArrival(g, p, a, b);
      assert false;
    }
  }

  // ----- predecessors -----

  /** An edge among the first i blocks and the first k edges of block i. */
  predicate EdgeBelow(g: Graph, i: int, k: int, p: int, b: int) {
    (0 <= p < i && p < |g| && b in g[p]) || (p == i && 0 <= i < |g| && 0 <= k <= |g[i]| && b in g[i][..k])
  }

  ghost predicate PredsBelow(g: Graph, i: int, k: int, preds: seq<seq<int>>) {
    |preds| == |g| && forall b, p :: 0 <= b < |g| ==> (p in preds[b] <==> EdgeBelow(g, i, k, p, b))
  }

  ghost predicate PredsOf(g: Graph, preds: seq<seq<int>>) {
    |preds| == |g| && forall b, p :: 0 <= b < |g| ==> (p in preds[b] <==> Edge(g, p, b))
  }

  /** Predecessors, terminator by terminator. */
  method Preds(g: Graph) returns (preds: seq<seq<int>>)
    requires Valid(g)
    ensures PredsOf(g, preds)
  {
    preds := seq(|g|, _ => []);
    assert PredsBelow(g, 0, 0, preds);
    for i := 0 to |g|
      invariant PredsBelow(g, i, 0, preds)
    {
      for k := 0 to |g[i]|
        invariant PredsBelow(g, i, k, preds)
      {
        var s := g[i][k];
        assert forall b :: b in g[i][..k + 1] <==> b in g[i][..k] || b == s;
        preds := preds[s := preds[s] + [i]];
      }
      assert forall p, b :: EdgeBelow(g, i, |g[i]|, p, b) <==>
                           EdgeBelow(g, i + 1, 0, p, b) by { assert g[i][..|g[i]|] == g[i]; }
    }
  }

  // ----- sets of blocks -----

  function Blocks(n: nat): (s: set<int>)
    ensures forall b :: b in s <==> 0 <= b < n
  {
    if n == 0 then {} else Blocks(n - 1) + {n - 1}
  }

  lemma {:induction false} Inhabited(s: set<int>)
    requires s != {}
    ensures exists x :: x in s
  {
    assert (forall x :: x !in s) ==> s == {};
  }
}
