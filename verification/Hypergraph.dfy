/**
  What the solver is asked: hypergraphs of relations, join trees over them, and the
  connected-subgraph / complement pairs a cross-product-free plan can join.
 */
module Hypergraph {
  import opened Basics
  import opened RelSets

  datatype Edge = Edge(left: RelSet, right: RelSet)

  datatype Graph = Graph(n: nat, edges: seq<Edge>)

  predicate EdgeOk(n: nat, e: Edge) {
    e.left != {} && e.right != {} && e.left !! e.right && e.left + e.right <= AllBelow(n)
  }

  // What is wrong with an edge, relation by relation: an empty side, a relation that does not
  // exist, or one on both sides.
  ghost predicate Malformed(n: nat, e: Edge) {
    || (forall r :: r !in e.left) || (forall r :: r !in e.right)
    || (exists r :: r in e.left && (r >= n || r in e.right))
    || (exists r :: r in e.right && r >= n)
  }

  lemma MalformedIs(n: nat, e: Edge)
    ensures Malformed(n, e) <==> !EdgeOk(n, e)
  {
    if e.left != {} {
      var r :| r in e.left;
    }
    if e.right != {} {
      var r :| r in e.right;
    }
    if e.left * e.right != {} {
      var r :| r in e.left * e.right;
    }
  }

  ghost predicate WellFormed(g: Graph) {
    && 1 <= g.n <= WORD
    && forall i :: 0 <= i < |g.edges| ==> EdgeOk(g.n, g.edges[i])
  }

  // One side of the edge lies in `l`, the other in `r`.
  predicate Spans(e: Edge, l: RelSet, r: RelSet) {
    (e.left <= l && e.right <= r) || (e.right <= l && e.left <= r)
  }

  ghost predicate Linked(g: Graph, l: RelSet, r: RelSet) {
    exists i :: 0 <= i < |g.edges| && Spans(g.edges[i], l, r)
  }

  // The first edge in input order between two sides.
  ghost predicate IsFirstEdge(g: Graph, l: RelSet, r: RelSet, e: nat) {
    && e < |g.edges|
    && Spans(g.edges[e], l, r)
    && forall i :: 0 <= i < e ==> !Spans(g.edges[i], l, r)
  }

  // ------------------------------------------------------------ join trees

  datatype JoinTree = Rel(r: nat) | Join(left: JoinTree, right: JoinTree, edge: nat)

  function Relations(t: JoinTree): RelSet {
    match t
    case Rel(r) => {r}
    case Join(l, r, _) => Relations(l) + Relations(r)
  }

  // A tree with no cross product: every join names an edge with one side in each child.
  ghost predicate ValidTree(g: Graph, t: JoinTree) {
    match t
    case Rel(r) => r < g.n
    case Join(l, r, e) =>
      && ValidTree(g, l) && ValidTree(g, r)
      && Relations(l) !! Relations(r)
      && e < |g.edges| && Spans(g.edges[e], Relations(l), Relations(r))
  }

  // Every join names the first edge in input order between its sides.
  ghost predicate NamesFirstEdges(g: Graph, t: JoinTree) {
    match t
    case Rel(_) => true
    case Join(l, r, e) =>
      NamesFirstEdges(g, l) && NamesFirstEdges(g, r) && IsFirstEdge(g, Relations(l), Relations(r), e)
  }

  // C_out: the sum over the joins of the cost of the set each produces.
  ghost function TreeCost(cost: RelSet -> real, t: JoinTree): real {
    match t
    case Rel(_) => 0.0
    case Join(l, r, _) => cost(Relations(t)) + TreeCost(cost, l) + TreeCost(cost, r)
  }

  // A set some join of the tree produces.
  predicate Produces(t: JoinTree, s: RelSet) {
    t.Join? && (s == Relations(t) || Produces(t.left, s) || Produces(t.right, s))
  }

  lemma {:induction false} ProducedWithin(g: Graph, t: JoinTree, s: RelSet)
    requires ValidTree(g, t)
    ensures Relations(t) != {}
    ensures Produces(t, s) ==> s != {} && s <= Relations(t)
    decreases t
  {
    match t
    case Rel(r) => assert r in Relations(t);
    case Join(l, r, _) =>
      ProducedWithin(g, l, s);
      ProducedWithin(g, r, s);
  }

  // Adding the costs of some sets one by one ends at `total`.
  ghost predicate AddsUp(cost: RelSet -> real, sets: seq<RelSet>, total: real) {
    exists acc: seq<real> ::
      && |acc| == |sets| + 1 && acc[0] == 0.0 && acc[|sets|] == total
      && forall k :: 0 <= k < |sets| ==> acc[k + 1] == acc[k] + cost(sets[k])
  }

  lemma AddsUpThen(cost: RelSet -> real, a: seq<RelSet>, x: real, b: seq<RelSet>, y: real)
    requires AddsUp(cost, a, x) && AddsUp(cost, b, y)
    ensures AddsUp(cost, a + b, x + y)
  {
    var p: seq<real> :|
      && |p| == |a| + 1 && p[0] == 0.0 && p[|a|] == x
      && forall k :: 0 <= k < |a| ==> p[k + 1] == p[k] + cost(a[k]);
    var q: seq<real> :|
      && |q| == |b| + 1 && q[0] == 0.0 && q[|b|] == y
      && forall k :: 0 <= k < |b| ==> q[k + 1] == q[k] + cost(b[k]);
    var acc := seq(|a + b| + 1, k requires 0 <= k <= |a + b| => if k <= |a| then p[k] else x + q[k - |a|]);
    assert acc[|a + b|] == x + y;
    forall k | 0 <= k < |a + b|
      ensures acc[k + 1] == acc[k] + cost((a + b)[k])
    {
      if k >= |a| {
        assert acc[k] == x + q[k - |a|];
        assert q[k - |a| + 1] == q[k - |a|] + cost(b[k - |a|]);
      }
    }
  }

  lemma AddsUpNone(cost: RelSet -> real)
    ensures AddsUp(cost, [], 0.0)
  {
    assert [0.0][0] == 0.0;
  }

  lemma AddsUpOne(cost: RelSet -> real, s: RelSet)
    ensures AddsUp(cost, [s], cost(s))
  {
    var acc := [0.0, cost(s)];
    assert acc[0] == 0.0 && acc[1] == acc[0] + cost([s][0]);
  }

  /** The cost of a tree is the sum, over the sets its joins produce, of each set's cost, once each. */
  lemma {:induction false} CostAddsUp(g: Graph, cost: RelSet -> real, t: JoinTree) returns (sets: seq<RelSet>)
    requires ValidTree(g, t)
    ensures NoDup(sets) && forall s :: s in sets <==> Produces(t, s)
    ensures AddsUp(cost, sets, TreeCost(cost, t))
    decreases t
  {
    match t
    case Rel(_) =>
      sets := [];
      AddsUpNone(cost);
    case Join(l, r, _) =>
      var a := CostAddsUp(g, cost, l);
      var b := CostAddsUp(g, cost, r);
      var top := [Relations(t)];
      hide AddsUp;
      AddsUpOne(cost, Relations(t));
      AddsUpThen(cost, top, cost(Relations(t)), a, TreeCost(cost, l));
      AddsUpThen(cost, top + a, cost(Relations(t)) + TreeCost(cost, l), b, TreeCost(cost, r));
      sets := top + a + b;
      forall s
        ensures s in a ==> s !in b && s != Relations(t)
        ensures s in b ==> s != Relations(t)
      {
        ApartProduced(g, l, r, s);
      }
      ApartNoDup(Relations(t), a, b);
  }

  lemma ApartProduced(g: Graph, l: JoinTree, r: JoinTree, s: RelSet)
    requires ValidTree(g, l) && ValidTree(g, r) && Relations(l) !! Relations(r)
    ensures Produces(l, s) ==> !Produces(r, s) && s != Relations(l) + Relations(r)
    ensures Produces(r, s) ==> s != Relations(l) + Relations(r)
  {
    ProducedWithin(g, l, s);
    ProducedWithin(g, r, s);
    var x :| x in Relations(l);
    var y :| y in Relations(r);
    if Produces(l, s) {
      var z :| z in s;
    }
  }

  lemma ApartNoDup(x: RelSet, a: seq<RelSet>, b: seq<RelSet>)
    requires NoDup(a) && NoDup(b) && (forall s :: s in a ==> s !in b && s != x) && forall s :: s in b ==> s != x
    ensures NoDup([x] + a + b)
  {
    var all := [x] + a + b;
    forall i, j | 0 <= i < j < |all|
      ensures all[i] != all[j]
    {
      assert 0 < j <= |a| ==> all[j] == a[j - 1] && all[j] in a;
      assert j > |a| ==> all[j] == b[j - 1 - |a|] && all[j] in b;
      assert 0 < i <= |a| ==> all[i] == a[i - 1] && all[i] in a;
      assert i > |a| ==> all[i] == b[i - 1 - |a|];
    }
  }

  // ------------------------------------------------------------ connectedness

  // A relation, or a set some edge splits into two connected halves.
  ghost predicate Connected(g: Graph, s: RelSet)
    decreases s
  {
    || (exists r :: r in s && s == {r} && r < g.n)
    || (exists l :: l < s && Splits(g, l, s) && Connected(g, l) && Connected(g, s - l))
  }

  ghost predicate Splits(g: Graph, l: RelSet, s: RelSet) {
    l != {} && l < s && Linked(g, l, s - l)
  }

  lemma {:induction false} ConnectedInRange(g: Graph, s: RelSet)
    requires Connected(g, s)
    ensures s != {} && s <= AllBelow(g.n)
    decreases s
  {
    if !exists r :: r in s && s == {r} && r < g.n {
      var l :| l < s && Splits(g, l, s) && Connected(g, l) && Connected(g, s - l);
      ConnectedInRange(g, l);
      ConnectedInRange(g, s - l);
      assert s == l + (s - l);
    }
  }

  // Two linked connected sets make a connected one.
  lemma JoinConnected(g: Graph, l: RelSet, r: RelSet)
    requires Connected(g, l) && Connected(g, r) && l !! r && Linked(g, l, r)
    ensures Connected(g, l + r)
  {
  }

  lemma LinkedSymmetric(g: Graph, l: RelSet, r: RelSet)
    requires Linked(g, l, r)
    ensures Linked(g, r, l)
  {
  }

  // A set is connected exactly when some cross-product-free tree covers it.
  lemma {:induction false} TreeConnects(g: Graph, t: JoinTree)
    requires ValidTree(g, t)
    ensures Connected(g, Relations(t))
  {
    match t
    case Rel(r) => assert r in Relations(t);
    case Join(l, r, e) =>
      TreeConnects(g, l);
      TreeConnects(g, r);
      JoinConnected(g, Relations(l), Relations(r));
  }

  lemma {:induction false} ConnectedHasTree(g: Graph, s: RelSet) returns (t: JoinTree)
    requires Connected(g, s)
    ensures ValidTree(g, t) && Relations(t) == s
    decreases s
  {
    if r :| r in s && s == {r} && r < g.n {
      t := Rel(r);
    } else {
      var l :| l < s && Splits(g, l, s) && Connected(g, l) && Connected(g, s - l);
      var tl := ConnectedHasTree(g, l);
      var tr := ConnectedHasTree(g, s - l);
      var e :| 0 <= e < |g.edges| && Spans(g.edges[e], l, s - l);
      t := Join(tl, tr, e);
      assert l + (s - l) == s;
    }
  }

  // ------------------------------------------------------------ progress

  // An edge read in one direction, leaving `from` for `to`.
  datatype DirectedEdge = DirectedEdge(from: RelSet, to: RelSet, edge: nat)

  // Every edge in both directions, in input order.
  function Directed(edges: seq<Edge>): (ds: seq<DirectedEdge>)
    ensures |ds| == 2 * |edges|
    ensures forall i :: 0 <= i < |edges| ==>
              && ds[2 * i] == DirectedEdge(edges[i].left, edges[i].right, i)
              && ds[2 * i + 1] == DirectedEdge(edges[i].right, edges[i].left, i)
  {
    if edges == [] then []
    else
      var last := |edges| - 1;
      Directed(edges[..last]) + [DirectedEdge(edges[last].left, edges[last].right, last),
                                 DirectedEdge(edges[last].right, edges[last].left, last)]
  }

  // `d` is one of the two readings of an edge of `g`.
  ghost predicate Reads(g: Graph, d: DirectedEdge) {
    && d.edge < |g.edges|
    && var e := g.edges[d.edge];
       d == DirectedEdge(e.left, e.right, d.edge) || d == DirectedEdge(e.right, e.left, d.edge)
  }

  lemma DirectedReads(g: Graph, d: DirectedEdge)
    ensures d in Directed(g.edges) <==> Reads(g, d)
  {
    var ds := Directed(g.edges);
    if d in ds {
      var k :| 0 <= k < |ds| && ds[k] == d;
      var i := k / 2;
      var e := g.edges[i];
      assert ds[2 * i] == DirectedEdge(e.left, e.right, i) && ds[2 * i + 1] == DirectedEdge(e.right, e.left, i);
      assert k == 2 * i || k == 2 * i + 1;
    }
    if Reads(g, d) {
      var i, e := d.edge, g.edges[d.edge];
      assert ds[2 * i] == DirectedEdge(e.left, e.right, i) && ds[2 * i + 1] == DirectedEdge(e.right, e.left, i);
    }
  }

  // An edge leads out of `c` to a side that lies wholly in the rest of `t`.
  ghost predicate Leaves(g: Graph, d: DirectedEdge, t: RelSet, c: RelSet) {
    Reads(g, d) && d.from <= c && d.to <= t && d.to !! c
  }

  // The progress lemma: a connected set that reaches into `c` and out of it has an edge that
  // starts inside `c` and whose far side avoids `c` altogether, hyperedges included.
  lemma {:induction false} Progress(g: Graph, t: RelSet, c: RelSet) returns (d: DirectedEdge)
    requires Connected(g, t)
    requires !(t !! c) && !(t <= c)
    ensures Leaves(g, d, t, c)
    decreases t
  {
    if r :| r in t && t == {r} && r < g.n {
      assert false;
    } else {
      var l :| l < t && Splits(g, l, t) && Connected(g, l) && Connected(g, t - l);
      var r := t - l;
      assert t == l + r;
      if !(l !! c) && !(l <= c) {
        d := Progress(g, l, c);
      } else if !(r !! c) && !(r <= c) {
        d := Progress(g, r, c);
      } else {
        d := CrossingEdge(g, l, r, c);
      }
    }
  }

  lemma CrossingEdge(g: Graph, l: RelSet, r: RelSet, c: RelSet) returns (d: DirectedEdge)
    requires Linked(g, l, r)
    requires !(l + r !! c) && !(l + r <= c)
    requires l !! c || l <= c
    requires r !! c || r <= c
    ensures Leaves(g, d, l + r, c)
  {
    var i :| 0 <= i < |g.edges| && Spans(g.edges[i], l, r);
    var e := g.edges[i];
    var (inL, inR) := if e.left <= l && e.right <= r then (e.left, e.right) else (e.right, e.left);
    if l <= c {
      assert r !! c;
      d := DirectedEdge(inL, inR, i);
    } else {
      assert l !! c && r <= c;
      d := DirectedEdge(inR, inL, i);
    }
  }

  // ------------------------------------------------------------ csg-cmp pairs

  ghost function ConnectedSets(g: Graph): set<RelSet> {
    set s: RelSet | s <= AllBelow(g.n) && Connected(g, s)
  }

  // A connected subgraph and a connected complement an edge links to it. Each unordered pair
  // is written once, the side holding the lower relation first.
  ghost predicate IsPair(g: Graph, l: RelSet, r: RelSet) {
    && Connected(g, l) && Connected(g, r)
    && l !! r && Linked(g, l, r)
    && l != {} && r != {} && Min(l) < Min(r)
  }

  ghost function CsgCmpPairs(g: Graph): set<(RelSet, RelSet)> {
    set l: RelSet, r: RelSet | l in ConnectedSets(g) && r in ConnectedSets(g) && IsPair(g, l, r) :: (l, r)
  }

  lemma PairsAre(g: Graph, l: RelSet, r: RelSet)
    ensures (l, r) in CsgCmpPairs(g) <==> IsPair(g, l, r)
  {
    if IsPair(g, l, r) {
      ConnectedInRange(g, l);
      ConnectedInRange(g, r);
      assert l in ConnectedSets(g) && r in ConnectedSets(g);
    }
  }

  // Two connected sets an edge links are a pair one way round and not the other.
  lemma PairOneWay(g: Graph, l: RelSet, r: RelSet)
    requires Connected(g, l) && Connected(g, r) && l !! r && Linked(g, l, r)
    ensures (l, r) in CsgCmpPairs(g) <==> (r, l) !in CsgCmpPairs(g)
  {
    hide Connected, Linked, CsgCmpPairs;
    LinkedSymmetric(g, l, r);
    ConnectedInRange(g, l);
    ConnectedInRange(g, r);
    PairsAre(g, l, r);
    PairsAre(g, r, l);
  }
}
