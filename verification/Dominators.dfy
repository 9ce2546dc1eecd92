/** Reverse postorder and the iterative dominator tree (host/dmacc/facts.go): the loop ends, and
    the tree it leaves is exactly dominance by paths. */
module Dominators {
  import opened Cfg

  // ----- reverse postorder -----

  /** Numbers of the reachable blocks, -1 for the others, with a depth-first parent for each block
      but the entry: an earlier predecessor. */
  ghost predicate Numbered(g: Graph, no: seq<int>, parent: seq<int>) {
    && Valid(g) && |no| == |parent| == |g| && no[0] == 0
    && (forall b :: 0 <= b < |g| ==> -1 <= no[b] < |g| && (no[b] >= 0 <==> Reached(g, b)))
    && (forall a, b :: 0 <= a < |g| && 0 <= b < |g| && no[a] == no[b] >= 0 ==> a == b)
    && (forall b :: 0 < b < |g| && no[b] >= 0 ==>
                      0 <= parent[b] < |g| && Edge(g, parent[b], b) && 0 <= no[parent[b]] < no[b])
  }

  // ----- the tree as it is built -----

  /** The tree so far: parents have smaller numbers and are in the tree; -1 is not yet. */
  predicate Tree(no: seq<int>, idom: seq<int>) {
    && |idom| == |no| > 0 && idom[0] == 0 && no[0] == 0
    && (forall b :: 0 <= b < |idom| ==> idom[b] >= -1)
    && forall b :: 0 <= b < |idom| && idom[b] >= 0 ==>
                     idom[b] < |idom| && idom[idom[b]] >= 0 && no[b] >= 0 && (b != 0 ==> 0 <= no[idom[b]] < no[b])
  }

  predicate In(idom: seq<int>, b: int) {
    0 <= b < |idom| && idom[b] >= 0
  }

  /** z is b or above it. */
  predicate Anc(no: seq<int>, idom: seq<int>, z: int, b: int)
    requires Tree(no, idom) && In(idom, b)
    decreases no[b]
  {
    z == b || (b != 0 && Anc(no, idom, z, idom[b]))
  }

  lemma {:induction false} AncNumber(no: seq<int>, idom: seq<int>, z: int, b: int)
    requires Tree(no, idom) && In(idom, b) && Anc(no, idom, z, b)
    ensures In(idom, z) && 0 <= no[z] <= no[b] && (z != b ==> no[z] < no[b])
    decreases no[b]
  {
    if z != b { AncNumber(no, idom, z, idom[b]); }
  }

  lemma {:induction false} AncTrans(no: seq<int>, idom: seq<int>, z: int, y: int, b: int)
    requires Tree(no, idom) && In(idom, b) && In(idom, y) && Anc(no, idom, y, b) && Anc(no, idom, z, y)
    ensures Anc(no, idom, z, b)
    decreases no[b]
  {
    if y != b { AncTrans(no, idom, z, y, idom[b]); }
  }

  /** Walks both sides up until they meet. */
  method Intersect(no: seq<int>, idom: seq<int>, x: int, y: int) returns (r: int)
    requires Tree(no, idom) && In(idom, x) && In(idom, y)
    requires forall a, b :: In(idom, a) && In(idom, b) && no[a] == no[b] ==> a == b
    ensures In(idom, r) && Anc(no, idom, r, x) && Anc(no, idom, r, y)
    ensures forall z :: Anc(no, idom, z, x) && Anc(no, idom, z, y) ==> Anc(no, idom, z, r)
  {
    var a, b := x, y;
    while a != b
      invariant In(idom, a) && In(idom, b) && Anc(no, idom, a, x) && Anc(no, idom, b, y)
      invariant forall z :: Anc(no, idom, z, x) && Anc(no, idom, z, y) ==> Anc(no, idom, z, a) && Anc(no, idom, z, b)
      decreases no[a] + no[b]
    {
      ghost var a0, b0 := a, b;
      a := Climb(no, idom, x, y, a, b);
      b := Climb(no, idom, y, x, b, a);
      AncNumber(no, idom, a, a0);
      AncNumber(no, idom, b, b0);
    }
    r := a;
  }

  /** Climbs from a while it is numbered after b; common ancestors stay above. */
  method Climb(no: seq<int>, idom: seq<int>, ghost x: int, ghost y: int, a: int, b: int) returns (r: int)
    requires Tree(no, idom) && In(idom, x) && In(idom, y) && In(idom, a) && In(idom, b) && Anc(no, idom, a, x)
    requires forall z :: Anc(no, idom, z, x) && Anc(no, idom, z, y) ==> Anc(no, idom, z, a) && Anc(no, idom, z, b)
    ensures In(idom, r) && Anc(no, idom, r, x) && Anc(no, idom, r, a) && no[r] <= no[b]
    ensures forall z :: Anc(no, idom, z, x) && Anc(no, idom, z, y) ==> Anc(no, idom, z, r)
  {
    r := a;
    while no[r] > no[b]
      invariant In(idom, r) && Anc(no, idom, r, x) && Anc(no, idom, r, a)
      invariant forall z :: Anc(no, idom, z, x) && Anc(no, idom, z, y) ==> Anc(no, idom, z, r)
      decreases no[r]
    {
      assert r != 0;
      assert Anc(no, idom, idom[r], r);
      AncTrans(no, idom, idom[r], r, x);
      AncTrans(no, idom, idom[r], r, a);
      forall z | Anc(no, idom, z, x) && Anc(no, idom, z, y) ensures Anc(no, idom, z, idom[r]) {
        AncNumber(no, idom, z, b);
      }
      r := idom[r];
    }
  }

  // ----- dominance up to k retreating edges -----

  /** Edges of a path that do not go forward in the numbering. */
  function Retreats(no: seq<int>, p: seq<int>): nat {
    if |p| <= 1 then 0
    else
      var a, b := p[|p| - 2], p[|p| - 1];
      Retreats(no, p[..|p| - 1]) + if 0 <= a < |no| && 0 <= b < |no| && no[a] >= no[b] then 1 else 0
  }

  lemma {:induction false} RetreatsPrefix(no: seq<int>, p: seq<int>, i: nat)
    requires i <= |p|
    ensures Retreats(no, p[..i]) <= Retreats(no, p)
    decreases |p|
  {
    if i == |p| {
      assert p[..i] == p;
    } else if |p| > 1 {
      RetreatsPrefix(no, p[..|p| - 1], i);
      assert p[..|p| - 1][..i] == p[..i];
    } else {
      assert |p[..i]| <= 1;
    }
  }

  /** z is on every path to b with at most k retreating edges. */
  ghost predicate InAll(g: Graph, no: seq<int>, z: int, b: int, k: int) {
    forall p :: PathTo(g, p, b) && Retreats(no, p) <= k ==> z in p
  }

  lemma {:induction false} InAllTrans(g: Graph, no: seq<int>, z: int, x: int, y: int, k: int, l: int)
    requires InAll(g, no, x, y, k) && InAll(g, no, z, x, l) && k <= l
    ensures InAll(g, no, z, y, k)
  {
    forall p | PathTo(g, p, y) && Retreats(no, p) <= k ensures z in p {
      var i :| 0 <= i < |p| && p[i] == x;
      Prefix(g, p, i);
      RetreatsPrefix(no, p, i + 1);
      assert z in p[..i + 1];
    }
  }

  /** A bound on retreating edges beyond which nothing more is learnt. */
  ghost predicate Enough(g: Graph, no: seq<int>, k: nat) {
    forall z, b :: 0 <= b < |g| && 0 <= z < |g| && InAll(g, no, z, b, k) ==> Dominates(g, z, b)
  }

  lemma {:induction false} AvoidedWithin(g: Graph, no: seq<int>, b: int, n: nat) returns (k: nat)
    requires n <= |g|
    ensures forall z :: 0 <= z < n && InAll(g, no, z, b, k) ==> Dominates(g, z, b)
    decreases n
  {
    if n == 0 { return 0; }
    k := AvoidedWithin(g, no, b, n - 1);
    var z := n - 1;
    if !Dominates(g, z, b) {
      var p :| PathTo(g, p, b) && z !in p;
      var k' := if Retreats(no, p) > k then Retreats(no, p) else k;
      forall y | 0 <= y < n && InAll(g, no, y, b, k') ensures Dominates(g, y, b) {
        assert Retreats(no, p) <= k';
        if y != z { assert InAll(g, no, y, b, k); }
      }
      k := k';
    }
  }

  lemma {:induction false} EnoughFor(g: Graph, no: seq<int>, n: nat) returns (k: nat)
    requires n <= |g|
    ensures forall z, b :: 0 <= b < n && 0 <= z < |g| && InAll(g, no, z, b, k) ==> Dominates(g, z, b)
    decreases n
  {
    if n == 0 { return 0; }
    var k0 := EnoughFor(g, no, n - 1);
    var k1 := AvoidedWithin(g, no, n - 1, |g|);
    k := if k0 > k1 then k0 else k1;
    forall z, b | 0 <= b < n && 0 <= z < |g| && InAll(g, no, z, b, k) ensures Dominates(g, z, b) {
      assert InAll(g, no, z, b, k0) && InAll(g, no, z, b, k1);
    }
  }

  // ----- the depth-first tree -----

  /** z is b or above it in the depth-first tree. */
  ghost predicate Above(g: Graph, no: seq<int>, parent: seq<int>, z: int, b: int)
    requires Numbered(g, no, parent) && 0 <= b < |g| && no[b] >= 0
    decreases no[b]
  {
    z == b || (b != 0 && Above(g, no, parent, z, parent[b]))
  }

  lemma {:induction false} AboveTrans(g: Graph, no: seq<int>, parent: seq<int>, z: int, y: int, b: int)
    requires Numbered(g, no, parent) && 0 <= b < |g| && no[b] >= 0 && 0 <= y < |g| && no[y] >= 0
    requires Above(g, no, parent, y, b) && Above(g, no, parent, z, y)
    ensures Above(g, no, parent, z, b)
    decreases no[b]
  {
    if y != b { AboveTrans(g, no, parent, z, y, parent[b]); }
  }

  /** The tree path down from y to b, all of it numbered after y. */
  lemma {:induction false} TreePath(g: Graph, no: seq<int>, parent: seq<int>, y: int, b: int) returns (q: seq<int>)
    requires Numbered(g, no, parent) && 0 <= b < |g| && no[b] >= 0 && Above(g, no, parent, y, b)
    ensures Trail(g, q) && q[0] == y && Last(q) == b && forall i :: 0 <= i < |q| ==> no[y] <= no[q[i]]
    decreases no[b]
  {
    if y == b { return [b]; }
    var r := TreePath(g, no, parent, y, parent[b]);
    q := r + [b];
    forall i | 0 < i < |q| ensures Edge(g, q[i - 1], q[i]) {
      if i == |r| { assert q[i - 1] == parent[b]; }
    }
  }

  // ----- what holds while the tree is built -----

  /** Dominators are ancestors; ancestors are above in the depth-first tree; and an ancestor is on
      every path with few retreating edges: k of them for blocks already visited in this sweep,
      numbered below i, and one less for the others. */
  ghost predicate Sandwich(g: Graph, no: seq<int>, parent: seq<int>, idom: seq<int>, k: int, i: int)
    requires Numbered(g, no, parent) && Tree(no, idom)
  {
    && (forall z, b :: In(idom, b) && Dominates(g, z, b) ==> Anc(no, idom, z, b))
    && (forall z, b :: In(idom, b) && Anc(no, idom, z, b) ==> Above(g, no, parent, z, b))
    && (forall z, b :: In(idom, b) && Anc(no, idom, z, b) ==> InAll(g, no, z, b, if no[b] < i then k else k - 1))
  }

  /** In sweep k, before block number i: the blocks numbered below i are in the tree, and after
      the first sweep all of them. */
  ghost predicate Progress(g: Graph, no: seq<int>, idom: seq<int>, k: int, i: int)
    requires |no| == |idom| == |g|
  {
    forall b :: 0 <= b < |g| && no[b] >= 0 ==> (idom[b] >= 0 <==> k > 0 || no[b] < i)
  }

  /** Moving b under d changes ancestors only below b: what was between, then d's. */
  lemma {:induction false} AncMoved(no: seq<int>, idom: seq<int>, b: int, d: int, z: int, y: int)
    requires Tree(no, idom) && In(idom, y) && In(idom, d) && 0 < b < |idom| && no[d] < no[b] && Tree(no, idom[b := d])
    requires no[y] >= 0
    ensures y != b && !Anc(no, idom, b, y) ==> (Anc(no, idom[b := d], z, y) <==> Anc(no, idom, z, y))
    ensures y != b && Anc(no, idom, b, y) ==>
              (Anc(no, idom[b := d], z, y) <==>
              (Anc(no, idom, z, y) && In(idom, z) && Anc(no, idom, b, z)) || Anc(no, idom[b := d], z, b))
    decreases no[y]
  {
    var idom' := idom[b := d];
    if y != b && y != 0 {
      if idom[y] == b {
        assert Anc(no, idom, b, idom[y]);
        assert Anc(no, idom', z, y) <==> z == y || Anc(no, idom', z, b);
        if Anc(no, idom, z, y) && In(idom, z) && Anc(no, idom, b, z) && z != y {
          AncNumber(no, idom, z, b); AncNumber(no, idom, b, z);
        }
      } else {
        AncMoved(no, idom, b, d, z, idom[y]);
      }
    }
  }

  /** d is the nearest common ancestor of b's predecessors in the tree. */
  ghost predicate Meet(g: Graph, no: seq<int>, idom: seq<int>, b: int, d: int)
    requires Tree(no, idom)
  {
    && In(idom, d) && (forall p :: Edge(g, p, b) && In(idom, p) ==> Anc(no, idom, d, p))
    && forall z :: (forall p :: Edge(g, p, b) && In(idom, p) ==> Anc(no, idom, z, p)) ==> Anc(no, idom, z, d)
  }

  /** The situation when block b is visited in sweep k. */
  ghost predicate Visiting(g: Graph, no: seq<int>, parent: seq<int>, idom: seq<int>, k: nat, b: int) {
    && Numbered(g, no, parent) && Tree(no, idom) && |idom| == |g| && 0 < b < |g| && no[b] > 0
    && Progress(g, no, idom, k, no[b]) && Sandwich(g, no, parent, idom, k, no[b])
  }

  /** The meet is numbered before b, because b's depth-first parent is. */
  lemma {:induction false} MeetNumber(g: Graph, no: seq<int>, parent: seq<int>, idom: seq<int>, k: nat, b: int, d: int)
    requires Visiting(g, no, parent, idom, k, b) && Meet(g, no, idom, b, d)
    ensures In(idom, parent[b]) && Anc(no, idom, d, parent[b]) && 0 <= no[d] < no[b]
  {
    hide Sandwich;
    assert In(idom, parent[b]);
    AncNumber(no, idom, d, parent[b]);
  }

  lemma {:induction false} TreeMoved(no: seq<int>, idom: seq<int>, b: int, d: int)
    requires Tree(no, idom) && In(idom, d) && 0 < b < |idom| && 0 <= no[d] < no[b]
    ensures Tree(no, idom[b := d])
    ensures forall z :: Anc(no, idom[b := d], z, b) <==> z == b || Anc(no, idom, z, d)
  {
    assert !Anc(no, idom, b, d) by { if Anc(no, idom, b, d) { AncNumber(no, idom, b, d); } }
    forall z ensures Anc(no, idom[b := d], z, b) <==> z == b || Anc(no, idom, z, d) {
      AncMoved(no, idom, b, d, z, d);
    }
  }

  /** A strict dominator of b dominates its predecessors, so it stays an ancestor. */
  lemma {:induction false} DominatorKept(g: Graph, no: seq<int>, parent: seq<int>, idom: seq<int>, k: nat, b: int,
                                         d: int, z: int)
    requires Visiting(g, no, parent, idom, k, b) && Meet(g, no, idom, b, d) && Dominates(g, z, b) && z != b
    ensures Anc(no, idom, z, d)
  {
    forall p | Edge(g, p, b) && In(idom, p) ensures Anc(no, idom, z, p) {
      PredDominated(g, z, p, b);
    }
  }

  lemma {:induction false} PredDominated(g: Graph, z: int, p: int, b: int)
    requires Valid(g) && Dominates(g, z, b) && z != b && Edge(g, p, b) && 0 <= b < |g|
    ensures Dominates(g, z, p)
  {
    forall q | PathTo(g, q, p) ensures z in q {
      assert PathTo(g, q + [b], b);
      assert z in q + [b];
    }
  }

  /** An ancestor of the meet is on every path to b with at most k retreating edges. */
  lemma {:induction false} MeetInAll(g: Graph, no: seq<int>, parent: seq<int>, idom: seq<int>, k: nat, b: int, d: int,
                                     z: int)
    requires Visiting(g, no, parent, idom, k, b) && Meet(g, no, idom, b, d) && Anc(no, idom, z, d)
    ensures InAll(g, no, z, b, k)
  {
    forall q | PathTo(g, q, b) && Retreats(no, q) <= k ensures z in q {
      var r, p := q[..|q| - 1], q[|q| - 2];
      Prefix(g, q, |q| - 2);
      assert r == q[..|q| - 2 + 1] && PathTo(g, r, p);
      assert Edge(g, p, b);
      assert Reached(g, p);
      assert In(idom, p);
      AncTrans(no, idom, z, d, p);
      assert z in r;
    }
  }

  /** A dominator of y above b dominates b: the depth-first path from b to y does not pass it. */
  lemma {:induction false} DominatorAbove(g: Graph, no: seq<int>, parent: seq<int>, z: int, b: int, y: int)
    requires Numbered(g, no, parent) && 0 <= y < |g| && no[y] >= 0 && 0 <= b < |g| && 0 <= z < |g|
    requires Above(g, no, parent, b, y) && Dominates(g, z, y) && no[z] < no[b]
    ensures Dominates(g, z, b)
  {
    var q := TreePath(g, no, parent, b, y);
    forall p | PathTo(g, p, b) ensures z in p {
      Join(g, p, q);
      assert z in p + q[1..];
      assert z !in q;
    }
  }

  /** Ancestors of one block are in line. */
  lemma {:induction false} AncLine(no: seq<int>, idom: seq<int>, z: int, y: int, b: int)
    requires Tree(no, idom) && In(idom, b) && Anc(no, idom, z, b) && Anc(no, idom, y, b)
    ensures In(idom, z) && In(idom, y) && (Anc(no, idom, z, y) || Anc(no, idom, y, z))
    decreases no[b]
  {
    AncNumber(no, idom, z, b);
    AncNumber(no, idom, y, b);
    if z != b && y != b { AncLine(no, idom, z, y, idom[b]); }
  }

  /** Dominators are still ancestors after b has moved. */
  lemma {:induction false} LowKept(g: Graph, no: seq<int>, parent: seq<int>, idom: seq<int>, k: nat, b: int, d: int,
                                   z: int, y: int)
    requires Visiting(g, no, parent, idom, k, b) && Meet(g, no, idom, b, d) && Tree(no, idom[b := d])
    requires In(idom[b := d], y) && Dominates(g, z, y)
    ensures Anc(no, idom[b := d], z, y)
  {
    MeetNumber(g, no, parent, idom, k, b, d);
    TreeMoved(no, idom, b, d);
    if y == b {
      if z != b { DominatorKept(g, no, parent, idom, k, b, d, z); }
    } else {
      AncMoved(no, idom, b, d, z, y);
      assert Anc(no, idom, z, y);
      if Anc(no, idom, b, y) {
        AncLine(no, idom, z, b, y);
        if !Anc(no, idom, b, z) {
          AncNumber(no, idom, z, b);
          assert Above(g, no, parent, b, y);
          DominatorAbove(g, no, parent, z, b, y);
          DominatorKept(g, no, parent, idom, k, b, d, z);
        }
      }
    }
  }

  /** Ancestors are still above in the depth-first tree. */
  lemma {:induction false} AboveKept(g: Graph, no: seq<int>, parent: seq<int>, idom: seq<int>, k: nat, b: int, d: int,
                                     z: int, y: int)
    requires Visiting(g, no, parent, idom, k, b) && Meet(g, no, idom, b, d) && Tree(no, idom[b := d])
    requires In(idom[b := d], y) && Anc(no, idom[b := d], z, y)
    ensures Above(g, no, parent, z, y)
  {
    MeetNumber(g, no, parent, idom, k, b, d);
    TreeMoved(no, idom, b, d);
    assert Anc(no, idom, z, d) ==> Above(g, no, parent, z, b) by {
      if Anc(no, idom, z, d) {
        AncTrans(no, idom, z, d, parent[b]);
        assert Above(g, no, parent, z, parent[b]);
      }
    }
    if y != b {
      AncMoved(no, idom, b, d, z, y);
      if Anc(no, idom, b, y) && !Anc(no, idom, z, y) {
        assert Above(g, no, parent, b, y);
        AboveTrans(g, no, parent, z, b, y);
      }
    }
  }

  /** Ancestors are on every path with few enough retreating edges; b itself has caught up. */
  lemma {:induction false} InAllKept(g: Graph, no: seq<int>, parent: seq<int>, idom: seq<int>, k: nat, b: int, d: int,
                                     z: int, y: int)
    requires Visiting(g, no, parent, idom, k, b) && Meet(g, no, idom, b, d) && Tree(no, idom[b := d])
    requires In(idom[b := d], y) && Anc(no, idom[b := d], z, y)
    ensures InAll(g, no, z, y, if no[y] < no[b] + 1 then k else k - 1)
  {
    MeetNumber(g, no, parent, idom, k, b, d);
    TreeMoved(no, idom, b, d);
    if Anc(no, idom, z, d) { MeetInAll(g, no, parent, idom, k, b, d, z); }
    if y != b {
      assert no[y] != no[b];
      AncMoved(no, idom, b, d, z, y);
      if Anc(no, idom, b, y) && !Anc(no, idom, z, y) {
        AncNumber(no, idom, b, y);
        InAllTrans(g, no, z, b, y, k - 1, k);
      }
    }
  }

  /** Visiting b in sweep k. */
  lemma {:induction false} VisitKeeps(g: Graph, no: seq<int>, parent: seq<int>, idom: seq<int>, k: nat, b: int, d: int)
    requires Visiting(g, no, parent, idom, k, b) && Meet(g, no, idom, b, d)
    ensures Tree(no, idom[b := d]) && Sandwich(g, no, parent, idom[b := d], k, no[b] + 1)
    ensures Progress(g, no, idom[b := d], k, no[b] + 1)
  {
    MeetNumber(g, no, parent, idom, k, b, d);
    TreeMoved(no, idom, b, d);
    var idom' := idom[b := d];
    assert Progress(g, no, idom', k, no[b] + 1);
    hide Visiting, Meet, InAll, Dominates;
    forall z, y | In(idom', y) && Dominates(g, z, y)
      ensures Anc(no, idom', z, y)
    {
      LowKept(g, no, parent, idom, k, b, d, z, y);
    }
    forall z, y | In(idom', y) && Anc(no, idom', z, y)
      ensures Above(g, no, parent, z, y)
    {
      AboveKept(g, no, parent, idom, k, b, d, z, y);
    }
    forall z, y | In(idom', y) && Anc(no, idom', z, y)
      ensures InAll(g, no, z, y, if no[y] < no[b] + 1 then k else k - 1)
    {
      InAllKept(g, no, parent, idom, k, b, d, z, y);
    }
  }

  // ----- the sweeps -----

  /** d is the meet of the first k listed predecessors that are in the tree, or -1. */
  ghost predicate MeetSoFar(no: seq<int>, idom: seq<int>, ps: seq<int>, k: int, d: int)
    requires Tree(no, idom) && 0 <= k <= |ps|
  {
    if d < 0 then forall i :: 0 <= i < k ==> !In(idom, ps[i])
    else
      && In(idom, d) && (forall i :: 0 <= i < k && In(idom, ps[i]) ==> Anc(no, idom, d, ps[i]))
      && forall z :: (forall i :: 0 <= i < k && In(idom, ps[i]) ==> Anc(no, idom, z, ps[i])) ==> Anc(no, idom, z, d)
  }

  /** One block: the meet of its predecessors in the tree. */
  method MeetOf(g: Graph, no: seq<int>, idom: seq<int>, ps: seq<int>, b: int, ghost parent: seq<int>, ghost k: nat)
    returns (d: int)
    requires Visiting(g, no, parent, idom, k, b) && forall p :: p in ps <==> Edge(g, p, b)
    ensures Meet(g, no, idom, b, d)
  {
    hide Sandwich, MeetSoFar, Anc, Meet, Progress, Numbered;
    OneNumber(g, no, parent, idom, k, b);
    d := -1;
    MeetNone(no, idom, ps);
    for j := 0 to |ps|
      invariant MeetSoFar(no, idom, ps, j, d) && (d >= 0 ==> In(idom, d))
    {
      var p := ps[j];
      assert Edge(g, p, b) by { assert p in ps; }
      if no[p] >= 0 && idom[p] >= 0 {
        if d < 0 {
          MeetFirst(no, idom, ps, j, d);
          d := p;
        } else {
          var d' := Intersect(no, idom, d, p);
          MeetMore(no, idom, ps, j, d, d');
          d := d';
        }
      } else {
        MeetSkip(no, idom, ps, j, d);
      }
    }
    assert parent[b] in ps;
    MeetDone(g, no, idom, ps, b, parent[b], d);
  }

  lemma {:induction false} OneNumber(g: Graph, no: seq<int>, parent: seq<int>, idom: seq<int>, k: nat, b: int)
    requires Visiting(g, no, parent, idom, k, b)
    ensures forall a, b :: In(idom, a) && In(idom, b) && no[a] == no[b] ==> a == b
    ensures |parent| == |g| && In(idom, parent[b]) && Edge(g, parent[b], b)
  {
  }

  lemma {:induction false} MeetNone(no: seq<int>, idom: seq<int>, ps: seq<int>)
    requires Tree(no, idom)
    ensures MeetSoFar(no, idom, ps, 0, -1)
  {
  }

  lemma {:induction false} MeetFirst(no: seq<int>, idom: seq<int>, ps: seq<int>, j: int, d: int)
    requires Tree(no, idom) && 0 <= j < |ps| && d < 0 && MeetSoFar(no, idom, ps, j, d) && In(idom, ps[j])
    ensures MeetSoFar(no, idom, ps, j + 1, ps[j])
  {
  }

  lemma {:induction false} MeetSkip(no: seq<int>, idom: seq<int>, ps: seq<int>, j: int, d: int)
    requires Tree(no, idom) && 0 <= j < |ps| && MeetSoFar(no, idom, ps, j, d) && !In(idom, ps[j])
    ensures MeetSoFar(no, idom, ps, j + 1, d)
  {
  }

  lemma {:induction false} MeetMore(no: seq<int>, idom: seq<int>, ps: seq<int>, j: int, d: int, d': int)
    requires Tree(no, idom) && 0 <= j < |ps| && d >= 0 && MeetSoFar(no, idom, ps, j, d) && In(idom, ps[j])
    requires In(idom, d') && Anc(no, idom, d', d) && Anc(no, idom, d', ps[j])
    requires forall z :: Anc(no, idom, z, d) && Anc(no, idom, z, ps[j]) ==> Anc(no, idom, z, d')
    ensures MeetSoFar(no, idom, ps, j + 1, d')
  {
    forall i | 0 <= i < j + 1 && In(idom, ps[i]) ensures Anc(no, idom, d', ps[i]) {
      if i < j { AncTrans(no, idom, d', d, ps[i]); }
    }
  }

  lemma {:induction false} MeetDone(g: Graph, no: seq<int>, idom: seq<int>, ps: seq<int>, b: int, p: int, d: int)
    requires Tree(no, idom) && (forall p :: p in ps <==> Edge(g, p, b)) && MeetSoFar(no, idom, ps, |ps|, d) && p in ps
    requires In(idom, p)
    ensures Meet(g, no, idom, b, d)
  {
    forall q | Edge(g, q, b) && In(idom, q) ensures d >= 0 && Anc(no, idom, d, q) {
      assert q in ps;
    }
    assert Edge(g, p, b);
    forall z | forall q :: Edge(g, q, b) && In(idom, q) ==> Anc(no, idom, z, q) ensures Anc(no, idom, z, d) {
      forall i | 0 <= i < |ps| && In(idom, ps[i]) ensures Anc(no, idom, z, ps[i]) { assert ps[i] in ps; }
    }
  }

  ghost predicate Listed(g: Graph, no: seq<int>, rpo: seq<int>) {
    |no| == |g| && |rpo| > 0 && (forall i :: 0 <= i < |rpo| ==> 0 <= rpo[i] < |g| && no[rpo[i]] == i)
        && forall b :: 0 <= b < |g| ==> no[b] < |rpo|
  }

  ghost predicate Exact(g: Graph, no: seq<int>, idom: seq<int>)
    requires Tree(no, idom)
  {
    forall z, b :: In(idom, b) ==> (Anc(no, idom, z, b) <==> Dominates(g, z, b))
  }

  /** Every block hangs under the meet of its predecessors. */
  ghost predicate Settled(g: Graph, no: seq<int>, idom: seq<int>)
    requires Tree(no, idom)
  {
    forall b :: 0 < b < |g| && In(idom, b) ==> Meet(g, no, idom, b, idom[b])
  }

  /** Nothing moves once the tree is dominance. */
  lemma {:induction false} ExactStays(g: Graph, no: seq<int>, parent: seq<int>, idom: seq<int>, k: nat, b: int, d: int)
    requires Visiting(g, no, parent, idom, k, b) && Meet(g, no, idom, b, d) && Exact(g, no, idom) && k > 0
    ensures d == idom[b]
  {
    hide Sandwich;
    MeetNumber(g, no, parent, idom, k, b, d);
    assert In(idom, b);
    var i := idom[b];
    assert Anc(no, idom, i, i) && Anc(no, idom, i, b);
    PredsDominated(g, no, idom, b, d);
    assert Anc(no, idom, d, b);
    forall p | Edge(g, p, b) && In(idom, p) ensures Anc(no, idom, i, p) { PredDominated(g, i, p, b); }
    assert Anc(no, idom, i, d) && Anc(no, idom, d, i);
    AncNumber(no, idom, i, d);
    AncNumber(no, idom, d, i);
  }

  /** What dominates every predecessor dominates the block. */
  lemma {:induction false} PredsDominated(g: Graph, no: seq<int>, idom: seq<int>, b: int, d: int)
    requires Tree(no, idom) && |idom| == |g| && 0 < b < |g|
    requires forall p :: Edge(g, p, b) && In(idom, p) ==> Dominates(g, d, p)
    requires forall p :: 0 <= p < |g| && Reached(g, p) ==> In(idom, p)
    ensures Dominates(g, d, b)
  {
    forall q | PathTo(g, q, b) ensures d in q {
      Prefix(g, q, |q| - 2);
      var r, p := q[..|q| - 2 + 1], q[|q| - 2];
      assert Edge(g, p, b) && PathTo(g, r, p);
      assert Reached(g, p);
      assert d in r;
    }
  }

  /** Before sweep k. */
  ghost predicate Ready(g: Graph, no: seq<int>, parent: seq<int>, idom: seq<int>, k: nat, i: int) {
    Numbered(g, no, parent) && Tree(no, idom) && |idom| == |g| && Progress(g, no, idom, k, i)
        && Sandwich(g, no, parent, idom, k, i)
  }

  /** One sweep over the blocks in reverse postorder. */
  method Sweep(g: Graph, no: seq<int>, rpo: seq<int>, preds: seq<seq<int>>, idom0: seq<int>, ghost parent: seq<int>,
               ghost k: nat)
    returns (idom: seq<int>, changed: bool)
    requires Ready(g, no, parent, idom0, k, 1) && Listed(g, no, rpo) && PredsOf(g, preds)
    ensures Ready(g, no, parent, idom, k, |rpo|)
    ensures !changed ==> idom == idom0 && Settled(g, no, idom)
    ensures k > 0 && Exact(g, no, idom0) ==> !changed
  {
    hide Numbered, Sandwich, Progress, Meet, Exact;
    idom, changed := idom0, false;
    for i := 1 to |rpo|
      invariant Ready(g, no, parent, idom, k, i)
      invariant !changed ==>
                  idom == idom0 && forall b :: 0 < b < |g| && In(idom, b) && no[b] < i ==> Meet(g, no, idom, b, idom[b])
      invariant k > 0 && Exact(g, no, idom0) ==> !changed
    {
      var b := rpo[i];
      NotEntry(g, no, parent, b);
      var d := MeetOf(g, no, idom, preds[b], b, parent, k);
      VisitKeeps(g, no, parent, idom, k, b, d);
      if k > 0 && Exact(g, no, idom0) && !changed { ExactStays(g, no, parent, idom, k, b, d); }
      ghost var was := idom;
      if idom[b] != d {
        idom := idom[b := d];
        changed := true;
      } else {
        assert idom == idom[b := d];
      }
      if !changed {
        forall y | 0 < y < |g| && In(idom, y) && no[y] < i + 1 ensures Meet(g, no, idom, y, idom[y]) {
          SameNumber(g, no, parent, y, b);
        }
      }
    }
  }

  lemma {:induction false} NotEntry(g: Graph, no: seq<int>, parent: seq<int>, b: int)
    requires Numbered(g, no, parent) && 0 <= b < |g| && no[b] > 0
    ensures 0 < b
  {
  }

  lemma {:induction false} SameNumber(g: Graph, no: seq<int>, parent: seq<int>, y: int, b: int)
    requires Numbered(g, no, parent) && 0 <= b < |g| && 0 <= y < |g| && no[b] >= 0
    ensures no[y] == no[b] ==> y == b
  {
  }

  /** The end of one sweep is the start of the next. */
  lemma {:induction false} NextSweep(g: Graph, no: seq<int>, parent: seq<int>, idom: seq<int>, k: nat, n: nat)
    requires Ready(g, no, parent, idom, k, n) && n > 0 && forall b :: 0 <= b < |g| ==> no[b] < n
    ensures Ready(g, no, parent, idom, k + 1, 1)
  {
    forall z, b | In(idom, b) && Anc(no, idom, z, b) ensures InAll(g, no, z, b, if no[b] < 1 then k + 1 else k) {
      if no[b] < 1 {
        SameNumber(g, no, parent, b, 0);
        assert z == 0;
      }
    }
  }

  /** The empty tree. */
  lemma {:induction false} FirstSweep(g: Graph, no: seq<int>, parent: seq<int>, idom: seq<int>)
    requires Numbered(g, no, parent) && |idom| == |g| && idom[0] == 0 && forall b :: 0 < b < |g| ==> idom[b] == -1
    ensures Ready(g, no, parent, idom, 0, 1)
  {
    assert Tree(no, idom);
    forall b | 0 <= b < |g| && no[b] >= 0 ensures idom[b] >= 0 <==> no[b] < 1 { SameNumber(g, no, parent, b, 0); }
    forall z, b | In(idom, b) && Dominates(g, z, b) ensures Anc(no, idom, z, b) {
      assert PathTo(g, [0], 0);
      assert z in [0];
    }
  }

  /** With enough sweeps behind it the tree is dominance. */
  lemma {:induction false} EventuallyExact(g: Graph, no: seq<int>, parent: seq<int>, idom: seq<int>, k: nat,
                                           enough: nat)
    requires Ready(g, no, parent, idom, k, 1) && Enough(g, no, enough) && k > enough
    ensures Exact(g, no, idom)
  {
    forall z, b | In(idom, b) && Anc(no, idom, z, b) ensures Dominates(g, z, b) {
      AncNumber(no, idom, z, b);
      assert InAll(g, no, z, b, k - 1);
      assert InAll(g, no, z, b, enough);
    }
  }

  /** A settled tree's ancestors are on every path. */
  lemma {:induction false} SettledOnPath(g: Graph, no: seq<int>, idom: seq<int>, p: seq<int>, z: int)
    requires Tree(no, idom) && |idom| == |g| && Settled(g, no, idom) && Path(g, p)
    requires forall b :: 0 <= b < |g| && Reached(g, b) ==> In(idom, b)
    requires In(idom, Last(p)) && Anc(no, idom, z, Last(p))
    ensures z in p
    decreases |p|
  {
    var b := Last(p);
    if z != b {
      Prefix(g, p, |p| - 2);
      var r, q := p[..|p| - 2 + 1], p[|p| - 2];
      assert Edge(g, q, b);
      assert Reached(g, q);
      AncTrans(no, idom, z, idom[b], q);
      SettledOnPath(g, no, idom, r, z);
    }
  }

  /** The immediate dominator of every reachable block but the entry, and -1 for the others. */
  ghost predicate Immediate(g: Graph, idom: seq<int>) {
    && |idom| == |g|
    && forall b :: 0 <= b < |g| ==>
                     if b == 0 || !Reached(g, b) then idom[b] == -1
                     else 0 <= idom[b] < |g| && idom[b] != b && Dominates(g, idom[b], b)
                          && forall z :: Dominates(g, z, b) && z != b ==> Dominates(g, z, idom[b])
  }

  lemma {:induction false} SettledImmediate(g: Graph, no: seq<int>, parent: seq<int>, idom: seq<int>, k: nat)
    requires Ready(g, no, parent, idom, k + 1, 1) && Settled(g, no, idom)
    ensures Immediate(g, idom[0 := -1])
  {
    forall z, b | In(idom, b) && Anc(no, idom, z, b) ensures Dominates(g, z, b) {
      forall p | PathTo(g, p, b) ensures z in p { SettledOnPath(g, no, idom, p, z); }
    }
    forall b | 0 < b < |g| && Reached(g, b)
      ensures Dominates(g, idom[b], b) && forall z :: Dominates(g, z, b) && z != b ==> Dominates(g, z, idom[b])
    {
      assert In(idom, b);
      assert Anc(no, idom, idom[b], idom[b]);
      assert Anc(no, idom, idom[b], b);
    }
    forall b | 0 <= b < |g| && !Reached(g, b) ensures idom[b] == -1 { assert no[b] == -1; }
  }

  /** Sweeps until nothing changes. */
  method Build(g: Graph, no: seq<int>, rpo: seq<int>, preds: seq<seq<int>>, ghost parent: seq<int>)
    returns (idom: seq<int>)
    requires Numbered(g, no, parent) && Listed(g, no, rpo) && PredsOf(g, preds)
    ensures Immediate(g, idom)
    ensures forall b :: 0 <= b < |g| && idom[b] >= 0 ==> idom[b] < |g| && 0 <= no[idom[b]] < no[b]
  {
    hide Sandwich, Progress, Settled, Exact, Immediate;
    idom := seq(|g|, i => if i == 0 then 0 else -1);
    FirstSweep(g, no, parent, idom);
    ghost var enough := EnoughFor(g, no, |g|);
    ghost var k: nat := 0;
    var changed := true;
    while changed
      invariant Ready(g, no, parent, idom, k, 1) && k <= enough + 2 && (changed ==> k <= enough + 1)
      invariant !changed ==> k > 0 && Settled(g, no, idom)
      decreases enough + 3 - k, changed
    {
      if k > enough { EventuallyExact(g, no, parent, idom, k, enough); }
      idom, changed := Sweep(g, no, rpo, preds, idom, parent, k);
      NextSweep(g, no, parent, idom, k, |rpo|);
      k := k + 1;
    }
    SettledImmediate(g, no, parent, idom, k - 1);
    idom := idom[0 := -1];
  }

  // ----- depth-first search -----

  /** The block is on the stack. */
  predicate Open(stack: seq<(int, int)>, b: int) {
    exists i :: 0 <= i < |stack| && stack[i].0 == b
  }

  /** p finishes after b: it is still open, or finished later. */
  ghost predicate After(stack: seq<(int, int)>, post: seq<int>, p: int, b: int) {
    Open(stack, p) || exists x, y :: 0 <= x < y < |post| && post[x] == b && post[y] == p
  }

  ghost predicate StackOk(g: Graph, stack: seq<(int, int)>, post: seq<int>, seen: set<int>, parent: seq<int>) {
    && |parent| == |g|
    && (forall i :: 0 <= i < |stack| ==>
                      0 <= stack[i].0 < |g| && 0 <= stack[i].1 <= |g[stack[i].0]| && stack[i].0 !in post)
    && (forall i, j :: 0 <= i < j < |stack| ==> stack[i].0 != stack[j].0)
    && (stack != [] ==> stack[0].0 == 0)
    && (forall i :: 0 < i < |stack| ==> parent[stack[i].0] == stack[i - 1].0)
    && (forall i, k :: 0 <= i < |stack| && 0 <= k < stack[i].1 ==> g[stack[i].0][k] in seen)
  }

  ghost predicate PostOk(g: Graph, stack: seq<(int, int)>, post: seq<int>, seen: set<int>, parent: seq<int>) {
    && |parent| == |g|
    && (forall i, j :: 0 <= i < j < |post| ==> post[i] != post[j])
    && (forall b :: b in post ==> 0 <= b < |g| && forall k :: 0 <= k < |g[b]| ==> g[b][k] in seen)
    && (forall b :: b in post && b != 0 ==> After(stack, post, parent[b], b))
    && (stack == [] ==> |post| > 0 && post[|post| - 1] == 0)
  }

  /** Blocks seen so far: reachable, each but the entry with its parent. */
  ghost predicate SeenOk(g: Graph, seen: set<int>, parent: seq<int>) {
    && Valid(g) && |parent| == |g| && 0 in seen
    && forall b :: b in seen ==>
                     0 <= b < |g| && Reached(g, b) && (b != 0 ==> 0 <= parent[b] < |g| && Edge(g, parent[b], b))
  }

  ghost predicate Searched(g: Graph, stack: seq<(int, int)>, post: seq<int>, seen: set<int>, parent: seq<int>) {
    && SeenOk(g, seen, parent) && (forall b :: b in seen <==> b in post || Open(stack, b))
    && StackOk(g, stack, post, seen, parent) && PostOk(g, stack, post, seen, parent)
  }

  lemma {:induction false} OpenPush(stack: seq<(int, int)>, s: int, k: int)
    ensures forall b :: Open(stack + [(s, k)], b) <==> Open(stack, b) || b == s
  {
    var stack' := stack + [(s, k)];
    assert stack'[|stack|].0 == s;
    forall b | Open(stack, b) ensures Open(stack', b) {
      var i :| 0 <= i < |stack| && stack[i].0 == b;
      assert stack'[i].0 == b;
    }
  }

  lemma {:induction false} SeenMore(g: Graph, seen: set<int>, parent: seq<int>, p: int, s: int)
    requires SeenOk(g, seen, parent) && p in seen && s !in seen && 0 <= s < |g| && Edge(g, p, s)
    ensures SeenOk(g, seen + {s}, parent[s := p])
  {
    var q :| PathTo(g, q, p);
    assert PathTo(g, q + [s], s);
  }

  lemma {:induction false} StackMore(g: Graph, stack: seq<(int, int)>, post: seq<int>, seen: set<int>, parent: seq<int>,
                                     s: int)
    requires StackOk(g, stack, post, seen, parent) && stack != [] && 0 <= s < |g| && s !in post
    requires forall i :: 0 <= i < |stack| ==> stack[i].0 != s
    ensures StackOk(g, stack + [(s, 0)], post, seen + {s}, parent[s := stack[|stack| - 1].0])
  {
  }

  lemma {:induction false} PostStays(g: Graph, stack: seq<(int, int)>, stack': seq<(int, int)>, post: seq<int>,
                                     seen: set<int>, seen': set<int>, parent: seq<int>, parent': seq<int>)
    requires PostOk(g, stack, post, seen, parent) && |parent'| == |g|
    requires (forall b :: b in post ==> parent'[b] == parent[b]) && seen <= seen'
    requires stack' != [] && forall b :: Open(stack, b) ==> Open(stack', b)
    ensures PostOk(g, stack', post, seen', parent')
  {
    hide Open;
    forall b | b in post && b != 0
      ensures After(stack', post, parent'[b], b)
    {
      assert After(stack, post, parent[b], b);
    }
  }

  /** A new successor is opened under the top. */
  lemma {:induction false} Opened(g: Graph, stack: seq<(int, int)>, post: seq<int>, seen: set<int>, parent: seq<int>,
                                  s: int)
    requires Searched(g, stack, post, seen, parent) && stack != [] && s !in seen && 0 <= s < |g|
    requires Edge(g, stack[|stack| - 1].0, s)
    ensures Searched(g, stack + [(s, 0)], post, seen + {s}, parent[s := stack[|stack| - 1].0])
  {
    hide SeenOk, StackOk;
    var top := stack[|stack| - 1].0;
    assert Open(stack, top);
    forall i | 0 <= i < |stack| ensures stack[i].0 != s { assert Open(stack, stack[i].0); }
    assert |parent| == |g| by { ParentLen(g, stack, post, seen, parent); }
    SeenMore(g, seen, parent, top, s);
    StackMore(g, stack, post, seen, parent, s);
    OpenPush(stack, s, 0);
    forall b | b in post ensures 0 <= b < |g| && b != s { assert b in seen; }
    PostStays(g, stack, stack + [(s, 0)], post, seen, seen + {s}, parent, parent[s := top]);
  }

  lemma {:induction false} ParentLen(g: Graph, stack: seq<(int, int)>, post: seq<int>, seen: set<int>, parent: seq<int>)
    requires StackOk(g, stack, post, seen, parent)
    ensures |parent| == |g|
  {
  }

  lemma {:induction false} StackLess(g: Graph, stack: seq<(int, int)>, post: seq<int>, seen: set<int>, parent: seq<int>)
    requires StackOk(g, stack, post, seen, parent) && stack != []
    ensures StackOk(g, stack[..|stack| - 1], post + [stack[|stack| - 1].0], seen, parent)
  {
    var n := |stack| - 1;
    var stack', post' := stack[..n], post + [stack[n].0];
    forall i | 0 <= i < n ensures stack'[i].0 !in post' { assert stack'[i] == stack[i]; }
  }

  lemma {:induction false} PostMore(g: Graph, stack: seq<(int, int)>, post: seq<int>, seen: set<int>, parent: seq<int>)
    requires StackOk(g, stack, post, seen, parent) && PostOk(g, stack, post, seen, parent) && stack != []
    requires stack[|stack| - 1].1 == |g[stack[|stack| - 1].0]|
    ensures PostOk(g, stack[..|stack| - 1], post + [stack[|stack| - 1].0], seen, parent)
  {
    var n := |stack| - 1;
    var top, stack', post' := stack[n].0, stack[..n], post + [stack[n].0];
    forall b | b in post' && b != 0 ensures After(stack', post', parent[b], b) {
      if b in post {
        AfterMore(stack, post, top, parent[b], b);
      } else {
        assert n > 0 && stack'[n - 1].0 == parent[b];
      }
    }
  }

  /** The top is finished. */
  lemma {:induction false} Closed(g: Graph, stack: seq<(int, int)>, post: seq<int>, seen: set<int>, parent: seq<int>)
    requires Searched(g, stack, post, seen, parent) && stack != [] && stack[|stack| - 1].0 in seen
    requires 0 <= stack[|stack| - 1].0 < |g| && stack[|stack| - 1].1 == |g[stack[|stack| - 1].0]|
    ensures Searched(g, stack[..|stack| - 1], post + [stack[|stack| - 1].0], seen, parent)
  {
    hide SeenOk, StackOk, PostOk, Open;
    var n := |stack| - 1;
    StackLess(g, stack, post, seen, parent);
    PostMore(g, stack, post, seen, parent);
    assert stack == stack[..n] + [(stack[n].0, stack[n].1)];
    OpenPush(stack[..n], stack[n].0, stack[n].1);
  }

  lemma {:induction false} AfterMore(stack: seq<(int, int)>, post: seq<int>, top: int, p: int, b: int)
    requires stack != [] && stack[|stack| - 1].0 == top && b in post && After(stack, post, p, b)
    ensures After(stack[..|stack| - 1], post + [top], p, b)
  {
    var n := |stack| - 1;
    var post' := post + [top];
    if Open(stack, p) {
      var i :| 0 <= i < |stack| && stack[i].0 == p;
      if i < n {
        assert stack[..n][i].0 == p;
      } else {
        var x :| 0 <= x < |post| && post[x] == b;
        assert post'[x] == b && post'[|post|] == p;
      }
    } else {
      var x, y :| 0 <= x < y < |post| && post[x] == b && post[y] == p;
      assert post'[x] == b && post'[y] == p;
    }
  }

  lemma {:induction false} StackAdvanced(g: Graph, stack: seq<(int, int)>, post: seq<int>, seen: set<int>,
                                         parent: seq<int>, n: nat)
    requires StackOk(g, stack, post, seen, parent) && n < |stack|
    requires var f := stack[n]; 0 <= f.0 < |g| && 0 <= f.1 < |g[f.0]| && g[f.0][f.1] in seen
    ensures StackOk(g, stack[n := (stack[n].0, stack[n].1 + 1)], post, seen, parent)
  {
    var f := stack[n];
    var stack' := stack[n := (f.0, f.1 + 1)];
    forall i, k | 0 <= i < |stack'| && 0 <= k < stack'[i].1 ensures g[stack'[i].0][k] in seen {
      if i == n && k == f.1 { assert g[f.0][f.1] in seen; } else { assert g[stack[i].0][k] in seen; }
    }
  }

  lemma {:induction false} SameOpen(stack: seq<(int, int)>, stack': seq<(int, int)>)
    requires |stack| == |stack'| && forall i :: 0 <= i < |stack| ==> stack'[i].0 == stack[i].0
    ensures forall b :: Open(stack', b) <==> Open(stack, b)
  {
    forall b | Open(stack, b)
      ensures Open(stack', b)
    {
      var i :| 0 <= i < |stack| && stack[i].0 == b; assert stack'[i].0 == b;
    }
  }

  /** A frame moves past a successor that has been seen. */
  lemma {:induction false} Advanced(g: Graph, stack: seq<(int, int)>, post: seq<int>, seen: set<int>, parent: seq<int>,
                                    n: nat)
    requires Searched(g, stack, post, seen, parent) && n < |stack|
    requires var f := stack[n]; 0 <= f.0 < |g| && 0 <= f.1 < |g[f.0]| && g[f.0][f.1] in seen
    ensures Searched(g, stack[n := (stack[n].0, stack[n].1 + 1)], post, seen, parent)
  {
    hide SeenOk, StackOk, Open;
    var stack' := stack[n := (stack[n].0, stack[n].1 + 1)];
    SameOpen(stack, stack');
    StackAdvanced(g, stack, post, seen, parent, n);
    PostStays(g, stack, stack', post, seen, seen, parent, parent);
  }

  /** Nothing reachable is missed by a set closed under successors. */
  lemma {:induction false} ReachesSeen(g: Graph, seen: set<int>, p: seq<int>, i: nat)
    requires Path(g, p) && i < |p| && 0 in seen
    requires forall b, k :: b in seen && 0 <= b < |g| && 0 <= k < |g[b]| ==> g[b][k] in seen
    ensures p[i] in seen
    decreases i
  {
    if i > 0 {
      ReachesSeen(g, seen, p, i - 1);
      assert Edge(g, p[i - 1], p[i]);
      var k :| 0 <= k < |g[p[i - 1]]| && g[p[i - 1]][k] == p[i];
    }
  }

  /** Every reachable block once, the entry last, each other block before its parent. */
  ghost predicate PostorderOf(g: Graph, post: seq<int>, parent: seq<int>) {
    && |parent| == |g| && |post| > 0 && post[|post| - 1] == 0
        && (forall i, j :: 0 <= i < j < |post| ==> post[i] != post[j])
    && (forall b :: b in post <==> Reached(g, b)) && (forall b :: b in post ==> 0 <= b < |g|)
    && forall b :: b in post && b != 0 ==>
                     0 <= parent[b] < |g| && Edge(g, parent[b], b) && After([], post, parent[b], b)
  }

  /** Successors the top has still to look at. */
  ghost function Pending(g: Graph, stack: seq<(int, int)>): int {
    if stack == [] || !(0 <= stack[|stack| - 1].0 < |g|) then 0 else |g[stack[|stack| - 1].0]| - stack[|stack| - 1].1
  }

  lemma {:induction false} TopOk(g: Graph, stack: seq<(int, int)>, post: seq<int>, seen: set<int>, parent: seq<int>)
    requires Searched(g, stack, post, seen, parent) && stack != []
    ensures stack[|stack| - 1].0 in seen && 0 <= stack[|stack| - 1].0 < |g| == |parent|
    ensures 0 <= stack[|stack| - 1].1 <= |g[stack[|stack| - 1].0]|
    ensures seen <= Blocks(|g|)
  {
    assert Open(stack, stack[|stack| - 1].0);
  }

  /** One step of the search: the top's next successor, or the top is finished. */
  method SearchStep(g: Graph, stack: seq<(int, int)>, post: seq<int>, seen: set<int>, ghost parent: seq<int>)
    returns (stack': seq<(int, int)>, post': seq<int>, seen': set<int>, ghost parent': seq<int>)
    requires Valid(g) && Searched(g, stack, post, seen, parent) && stack != []
    ensures Searched(g, stack', post', seen', parent')
    ensures |Blocks(|g|) - seen'| < |Blocks(|g|) - seen|
              || (seen' == seen && (|stack'| < |stack|
              || (|stack'| == |stack| && 0 <= Pending(g, stack') < Pending(g, stack))))
  {
    hide Searched, Blocks;
    TopOk(g, stack, post, seen, parent);
    var n := |stack| - 1;
    var f := stack[n];
    stack', post', seen', parent' := stack, post, seen, parent;
    if f.1 < |g[f.0]| {
      var s := g[f.0][f.1];
      if s !in seen {
        Opened(g, stack, post, seen, parent, s);
        Advanced(g, stack + [(s, 0)], post, seen + {s}, parent[s := f.0], n);
        assert (stack + [(s, 0)])[n := (f.0, f.1 + 1)] == stack[n := (f.0, f.1 + 1)] + [(s, 0)];
        Fewer(Blocks(|g|), seen, s);
        seen', parent' := seen + {s}, parent[s := f.0];
        stack' := stack[n := (f.0, f.1 + 1)] + [(s, 0)];
      } else {
        Advanced(g, stack, post, seen, parent, n);
        stack' := stack[n := (f.0, f.1 + 1)];
      }
    } else {
      Closed(g, stack, post, seen, parent);
      post' := post + [f.0];
      stack' := stack[..n];
    }
  }

  /** Postorder by an explicit stack of blocks and successor positions. */
  method Postorder(g: Graph) returns (post: seq<int>, ghost parent: seq<int>)
    requires Valid(g)
    ensures PostorderOf(g, post, parent)
  {
    hide Searched, Blocks, Pending, After;
    var seen, stack := {0}, [(0, 0)];
    post, parent := [], seq(|g|, _ => 0);
    Begun(g);
    while stack != []
      invariant Searched(g, stack, post, seen, parent)
      decreases |Blocks(|g|) - seen|, |stack|, Pending(g, stack)
    {
      stack, post, seen, parent := SearchStep(g, stack, post, seen, parent);
    }
    Finished(g, post, seen, parent);
  }

  lemma {:induction false} Fewer(all: set<int>, seen: set<int>, s: int)
    requires s in all && s !in seen
    ensures |all - (seen + {s})| < |all - seen|
  {
    assert all - seen == (all - (seen + {s})) + {s};
  }

  lemma {:induction false} Finished(g: Graph, post: seq<int>, seen: set<int>, parent: seq<int>)
    requires Searched(g, [], post, seen, parent)
    ensures PostorderOf(g, post, parent)
  {
    forall b | Reached(g, b) ensures b in post {
      var p :| PathTo(g, p, b);
      ReachesSeen(g, seen, p, |p| - 1);
    }
  }

  lemma {:induction false} Begun(g: Graph)
    requires Valid(g)
    ensures Searched(g, [(0, 0)], [], {0}, seq(|g|, _ => 0))
  {
    assert PathTo(g, [0], 0);
    assert [(0, 0)][0].0 == 0;
  }

  /** Numbers count back from the end of the postorder. */
  ghost predicate Places(n: nat, post: seq<int>, no: seq<int>, rpo: seq<int>) {
    && |no| == n && |rpo| == |post|
    && (forall k :: 0 <= k < |post| ==>
                      0 <= post[k] < n && rpo[|post| - 1 - k] == post[k] && no[post[k]] == |post| - 1 - k)
    && (forall b :: 0 <= b < n ==> -1 <= no[b] < |post| && (no[b] >= 0 ==> post[|post| - 1 - no[b]] == b))
  }

  method Number(n: nat, post: seq<int>) returns (rpo: seq<int>, no: seq<int>)
    requires forall i, j :: 0 <= i < j < |post| ==> post[i] != post[j]
    requires forall k :: 0 <= k < |post| ==> 0 <= post[k] < n
    ensures Places(n, post, no, rpo)
  {
    rpo, no := [], seq(n, _ => -1);
    var i := |post|;
    while i > 0
      invariant 0 <= i <= |post| && |no| == n && |rpo| == |post| - i
      invariant forall k :: i <= k < |post| ==> rpo[|post| - 1 - k] == post[k] && no[post[k]] == |post| - 1 - k
      invariant forall b :: 0 <= b < n ==> -1 <= no[b] < |rpo| && (no[b] >= 0 ==> post[|post| - 1 - no[b]] == b)
    {
      i := i - 1;
      no := no[post[i] := |rpo|];
      rpo := rpo + [post[i]];
    }
  }

  /** Reverse postorder and its numbering. */
  method ReversePostorder(g: Graph) returns (rpo: seq<int>, no: seq<int>, ghost parent: seq<int>)
    requires Valid(g)
    ensures Numbered(g, no, parent) && Listed(g, no, rpo)
  {
    hide Numbered, Listed, Places, After;
    var post;
    post, parent := Postorder(g);
    forall k | 0 <= k < |post| ensures 0 <= post[k] < |g| { assert post[k] in post; }
    rpo, no := Number(|g|, post);
    NumberedBy(g, post, no, rpo, parent);
  }

  lemma {:induction false} ParentEarlier(g: Graph, post: seq<int>, no: seq<int>, rpo: seq<int>, parent: seq<int>,
                                         b: int)
    requires PostorderOf(g, post, parent) && Places(|g|, post, no, rpo) && 0 < b < |g| && no[b] >= 0
    ensures 0 <= parent[b] < |g| && Edge(g, parent[b], b) && 0 <= no[parent[b]] < no[b]
  {
    assert b in post;
    var x, y :| 0 <= x < y < |post| && post[x] == b && post[y] == parent[b];
  }

  lemma {:induction false} NumberedReached(g: Graph, post: seq<int>, no: seq<int>, rpo: seq<int>, parent: seq<int>,
                                           b: int)
    requires PostorderOf(g, post, parent) && Places(|g|, post, no, rpo) && 0 <= b < |g|
    ensures no[b] >= 0 <==> Reached(g, b)
  {
    hide After;
    if b in post {
      var k :| 0 <= k < |post| && post[k] == b;
    }
  }

  lemma {:induction false} NumberedBy(g: Graph, post: seq<int>, no: seq<int>, rpo: seq<int>, parent: seq<int>)
    requires Valid(g) && PostorderOf(g, post, parent) && Places(|g|, post, no, rpo)
    ensures Numbered(g, no, parent) && Listed(g, no, rpo)
  {
    hide After, Reached;
    Shorter(g, post);
    forall b | 0 < b < |g| && no[b] >= 0
      ensures 0 <= parent[b] < |g| && Edge(g, parent[b], b) && 0 <= no[parent[b]] < no[b]
    {
      ParentEarlier(g, post, no, rpo, parent, b);
    }
    forall b | 0 <= b < |g| ensures no[b] >= 0 <==> Reached(g, b) { NumberedReached(g, post, no, rpo, parent, b); }
    forall i | 0 <= i < |rpo|
      ensures 0 <= rpo[i] < |g| && no[rpo[i]] == i
    {
      assert rpo[|post| - 1 - (|post| - 1 - i)] == post[|post| - 1 - i];
    }
  }

  /** Distinct blocks are no more than the blocks. */
  lemma {:induction false} Shorter(g: Graph, post: seq<int>)
    requires (forall i, j :: 0 <= i < j < |post| ==> post[i] != post[j]) && forall b :: b in post ==> 0 <= b < |g|
    ensures |post| <= |g|
  {
    Counted(post);
    BlocksSize(|g|);
    Inside((set b | b in post), Blocks(|g|));
  }

  lemma {:induction false} Counted(post: seq<int>)
    requires forall i, j :: 0 <= i < j < |post| ==> post[i] != post[j]
    ensures |set b | b in post| == |post|
    decreases |post|
  {
    if post != [] {
      var n := |post| - 1;
      Counted(post[..n]);
      assert (set b | b in post) == (set b | b in post[..n]) + {post[n]};
    }
  }

  lemma {:induction false} BlocksSize(n: nat)
    ensures |Blocks(n)| == n
  {
    if n > 0 { BlocksSize(n - 1); }
  }

  lemma {:induction false} Inside(a: set<int>, b: set<int>)
    requires a <= b
    ensures |a| <= |b|
  {
    assert b == a + (b - a);
  }

  /** Every block is listed once, behind its immediate dominator. */
  predicate TopDown(rpo: seq<int>, idom: seq<int>) {
    && (forall i, j :: 0 <= i < j < |rpo| ==> rpo[i] != rpo[j])
    && forall i :: 0 <= i < |rpo| ==> 0 <= rpo[i] < |idom| && (idom[rpo[i]] >= 0 ==> idom[rpo[i]] in rpo[..i])
  }

  /** The block graph's dominator tree: exactly the immediate dominators. */
  method DominatorTree(g: Graph) returns (rpo: seq<int>, idom: seq<int>, preds: seq<seq<int>>)
    requires Valid(g)
    ensures PredsOf(g, preds) && Immediate(g, idom) && TopDown(rpo, idom)
    ensures forall b :: b in rpo <==> 0 <= b < |g| && Reached(g, b)
  {
    var no;
    ghost var parent;
    preds := Preds(g);
    rpo, no, parent := ReversePostorder(g);
    idom := Build(g, no, rpo, preds, parent);
    forall b | 0 <= b < |g| && Reached(g, b) ensures b in rpo { assert no[rpo[no[b]]] == no[b]; }
    forall i | 0 <= i < |rpo| && idom[rpo[i]] >= 0 ensures idom[rpo[i]] in rpo[..i] {
      var k := no[idom[rpo[i]]];
      assert no[rpo[k]] == k && rpo[..i][k] == rpo[k];
    }
  }
}
