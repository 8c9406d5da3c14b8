/**
  The solver's entry point: input checks, the enumeration, and the answer read back from the
  plan table.
 */
module Dphyp {
  import opened Basics
  import opened RelSets
  import opened Hypergraph
  import opened PlanTable
  import opened Enumerate
  import opened Coverage

  datatype Solved = Solved(tree: JoinTree, cost: real, pairs: nat)

  datatype Unsolved =
    | BudgetExhausted
    | Disconnected
    | RelationCount(n: nat)
    | EdgeAt(index: nat)

  datatype Result = Ok(solved: Solved) | Err(why: Unsolved)

  // `t` is a cheapest cross-product-free tree over every relation, at cost `cost`.
  ghost predicate IsOptimum(g: Graph, setCost: RelSet -> real, t: JoinTree, cost: real) {
    && ValidTree(g, t) && Relations(t) == AllBelow(g.n)
    && cost == TreeCost(setCost, t)
    && forall other :: ValidTree(g, other) && Relations(other) == AllBelow(g.n) ==>
                         cost <= TreeCost(setCost, other)
  }

  // The answer to a well-formed question, for every graph, cost function and budget.
  ghost predicate Answers(g: Graph, setCost: RelSet -> real, maxPairs: nat, res: Result) {
    if |CsgCmpPairs(g)| > maxPairs then res == Err(BudgetExhausted)
    else if !Connected(g, AllBelow(g.n)) then res == Err(Disconnected)
    else
      && res.Ok?
      && IsOptimum(g, setCost, res.solved.tree, res.solved.cost)
      && NamesFirstEdges(g, res.solved.tree)
      && res.solved.pairs == |CsgCmpPairs(g)|
  }

  // What the cost callback is asked: no set twice, only connected sets of two or more
  // relations, and all of them when the budget lasts.
  ghost predicate AsksOnce(g: Graph, maxPairs: nat, asked: seq<RelSet>) {
    && NoDup(asked)
    && (forall s :: s in asked ==> Compound(g, s))
    && (|CsgCmpPairs(g)| <= maxPairs ==> forall s :: Compound(g, s) ==> s in asked)
  }

  lemma {:induction false} SubsetCardinality<T>(a: set<T>, b: set<T>)
    requires a <= b
    ensures |a| <= |b|
    decreases a
  {
    if a != {} {
      var x :| x in a;
      SubsetCardinality(a - {x}, b - {x});
    }
  }

  // Running out of budget means there were too many pairs to begin with, and not running out
  // means there were not.
  lemma BudgetDecides(g: Graph, setCost: RelSet -> real, st: State, maxPairs: nat)
    requires Sound(g, setCost, st)
    requires st.pairs <= maxPairs ==> st.emitted == CsgCmpPairs(g)
    ensures st.pairs > maxPairs <==> |CsgCmpPairs(g)| > maxPairs
  {
    SubsetCardinality(st.emitted, CsgCmpPairs(g));
  }

  lemma AskedAll(g: Graph, setCost: RelSet -> real, st: State, maxPairs: nat)
    requires Sound(g, setCost, st)
    requires st.pairs <= maxPairs ==> Live(g, setCost, st) && st.emitted == CsgCmpPairs(g)
    ensures AsksOnce(g, maxPairs, st.asked)
  {
    BudgetDecides(g, setCost, st, maxPairs);
    if st.pairs <= maxPairs {
      forall s | Compound(g, s)
        ensures s in st.asked
      {
        var l, r := CompoundSplits(g, s);
        PairsAre(g, l, r);
        assert Priced(g, setCost, st, (l, r));
      }
    }
  }

  lemma TableAnswers(g: Graph, setCost: RelSet -> real, st: State)
    requires Sound(g, setCost, st) && Live(g, setCost, st) && st.emitted == CsgCmpPairs(g)
    ensures AllBelow(g.n) in st.plans <==> Connected(g, AllBelow(g.n))
    ensures AllBelow(g.n) in st.plans ==>
      IsOptimum(g, setCost, Tree(g, setCost, st, AllBelow(g.n)), st.plans[AllBelow(g.n)].cost)
  {
    CompleteIsPlanned(g, setCost, st, AllBelow(g.n));
    if AllBelow(g.n) in st.plans {
      forall other | ValidTree(g, other) && Relations(other) == AllBelow(g.n)
        ensures st.plans[AllBelow(g.n)].cost <= TreeCost(setCost, other)
      {
        NoTreeIsCheaper(g, setCost, st, other);
      }
    }
  }

  // A finished table holds the connected sets and no other.
  lemma TableHoldsConnected(g: Graph, setCost: RelSet -> real, st: State, s: RelSet)
    requires Sound(g, setCost, st) && Live(g, setCost, st) && st.emitted == CsgCmpPairs(g)
    ensures s in st.plans <==> Connected(g, s)
  {
    if s in st.plans {
      PlannedIsConnected(g, setCost, st, s);
    }
    if Connected(g, s) {
      ConnectedInRange(g, s);
      CompleteIsPlanned(g, setCost, st, s);
    }
  }

  /** The tree over `s` a finished table describes. */
  method ReadTree(dp: Dp, s: RelSet) returns (t: JoinTree)
    requires dp.Valid() && s in dp.plans
    ensures t == Tree(dp.g, dp.setCost, dp.View(), s)
    decreases s
  {
    assert PlanOk(dp.g, dp.setCost, dp.View(), s);
    match dp.plans[s].split {
      case None =>
        LoneRelation(dp.g, s);
        t := Rel(Min(s));
      case Some(Split(l, r, e)) =>
        SidesShrink(dp.g, l, r);
        var tl := ReadTree(dp, l);
        var tr := ReadTree(dp, r);
        t := Join(tl, tr, e);
    }
  }

  lemma SidesShrink(g: Graph, l: RelSet, r: RelSet)
    requires (l, r) in CsgCmpPairs(g)
    ensures l < l + r && r < l + r
  {
  }

  /** Decides every question: the first thing wrong with it, or the answer `Answers` names. `asked` is
      what the callback was asked on the way. */
  method Solve(n: nat, edges: seq<Edge>, setCost: RelSet -> real, maxPairs: nat)
    returns (res: Result, asked: seq<RelSet>)
    // A count of relations is refused when it is none or more than 64.
    ensures forall k: nat :: res == Err(RelationCount(k)) <==> k == n && (n == 0 || n > 64)
    // An edge is refused when it is the first with an empty side, a relation past n, or one on both sides.
    ensures forall i: nat :: res == Err(EdgeAt(i)) <==>
              && 1 <= n <= 64 && i < |edges|
              && (|| (forall r :: r !in edges[i].left) || (forall r :: r !in edges[i].right)
                  || (exists r :: r in edges[i].left && (r >= n || r in edges[i].right))
                  || (exists r :: r in edges[i].right && r >= n))
              && forall j :: 0 <= j < i ==> !Malformed(n, edges[j])
    ensures res.Err? && (res.why.RelationCount? || res.why.EdgeAt?) ==> asked == []
    // Anything else is answered.
    ensures WellFormed(Graph(n, edges)) <==> !(res.Err? && (res.why.RelationCount? || res.why.EdgeAt?))
    ensures WellFormed(Graph(n, edges)) ==>
              && Answers(Graph(n, edges), setCost, maxPairs, res)
              && AsksOnce(Graph(n, edges), maxPairs, asked)
  {
    hide Answers, AsksOnce, EdgeOk;
    if n == 0 || n > WORD {
      return Err(RelationCount(n)), [];
    }
    for i := 0 to |edges|
      invariant forall j :: 0 <= j < i ==> EdgeOk(n, edges[j]) && !Malformed(n, edges[j])
    {
      MalformedIs(n, edges[i]);
      if !EdgeOk(n, edges[i]) {
        return Err(EdgeAt(i)), [];
      }
    }
    res, asked := SolveWellFormed(Graph(n, edges), setCost, maxPairs);
    AnsweredOtherwise(Graph(n, edges), setCost, maxPairs, res);
  }

  lemma AnsweredOtherwise(g: Graph, setCost: RelSet -> real, maxPairs: nat, res: Result)
    requires Answers(g, setCost, maxPairs, res)
    ensures !(res.Err? && (res.why.RelationCount? || res.why.EdgeAt?))
  {
  }

  method SolveWellFormed(g: Graph, setCost: RelSet -> real, maxPairs: nat) returns (res: Result, asked: seq<RelSet>)
    requires WellFormed(g)
    ensures Answers(g, setCost, maxPairs, res)
    ensures AsksOnce(g, maxPairs, asked)
  {
    hide Sound, Live, Connected, IsOptimum, NamesFirstEdges, AsksOnce, CsgCmpPairs, Tree;
    var dp := new Dp(g, setCost, maxPairs);
    var completed := dp.Run();
    asked := dp.asked;
    BudgetDecides(g, setCost, dp.View(), maxPairs);
    AskedAll(g, setCost, dp.View(), maxPairs);
    if !completed {
      return Err(BudgetExhausted), asked;
    }
    TableAnswers(g, setCost, dp.View());
    var all := AllBelow(g.n);
    if all !in dp.plans {
      return Err(Disconnected), asked;
    }
    var tree := ReadTree(dp, all);
    AllEmitted(g, setCost, dp.View());
    res := Ok(Solved(tree, dp.plans[all].cost, dp.pairs));
  }

  lemma AllEmitted(g: Graph, setCost: RelSet -> real, st: State)
    requires Sound(g, setCost, st) && st.emitted == CsgCmpPairs(g)
    ensures st.pairs == |CsgCmpPairs(g)|
  {
  }
}
