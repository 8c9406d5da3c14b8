/**
  The state the enumeration updates, as a value: the plan table, the cost memo, the pairs
  counted so far, and what the callback was asked. `Sound` holds in every state of every run;
  `Live` holds while the pair budget lasts and carries the dynamic program: every emitted pair
  has been priced against its union's plan, and both its sides were finished before.
 */
module PlanTable {
  import opened Basics
  import opened RelSets
  import opened Hypergraph

  datatype Split = Split(left: RelSet, right: RelSet, edge: nat)

  // The cheapest way found to produce a set; no split for a single relation.
  datatype Plan = Plan(cost: real, split: Option<Split>)

  datatype State = State(
    plans: map<RelSet, Plan>,
    costs: map<RelSet, real>,
    asked: seq<RelSet>,               // the callback's arguments, in call order
    pairs: nat,
    emitted: set<(RelSet, RelSet)>,   // the pairs counted
    done: set<RelSet>                 // the subgraphs whose complements were enumerated
  )

  function Singletons(g: Graph): set<RelSet> {
    set r | r in AllBelow(g.n) :: {r}
  }

  ghost predicate PlanOk(g: Graph, cost: RelSet -> real, st: State, s: RelSet)
    requires s in st.plans
  {
    && s in ConnectedSets(g)
    && match st.plans[s].split
       case None => s in Singletons(g) && st.plans[s].cost == 0.0
       case Some(Split(l, r, e)) =>
         && (l, r) in st.emitted && l + r == s
         && l in st.plans && r in st.plans
         && IsFirstEdge(g, l, r, e)
         && st.plans[s].cost == cost(s) + st.plans[l].cost + st.plans[r].cost
  }

  // A connected set of two or more relations.
  ghost predicate Compound(g: Graph, s: RelSet) {
    s in ConnectedSets(g) && s !in Singletons(g)
  }

  ghost predicate CostsOk(g: Graph, cost: RelSet -> real, st: State) {
    && (forall s :: s in st.costs ==> Compound(g, s) && st.costs[s] == cost(s))
    && NoDup(st.asked)
    && (forall s :: s in st.asked <==> s in st.costs)
  }

  ghost predicate Sound(g: Graph, cost: RelSet -> real, st: State) {
    && st.pairs == |st.emitted|
    && st.emitted <= CsgCmpPairs(g)
    && (forall p :: p in st.emitted ==> p.0 in st.done)
    && st.done <= ConnectedSets(g)
    && Singletons(g) <= st.plans.Keys
    && (forall s :: s in st.plans ==> PlanOk(g, cost, st, s))
    && CostsOk(g, cost, st)
  }

  // The pairs that produce `s`.
  ghost function UnionPairs(g: Graph, s: RelSet): set<(RelSet, RelSet)> {
    set p | p in CsgCmpPairs(g) && p.0 + p.1 == s
  }

  // No pair that could change the plan of `s` is left.
  ghost predicate Complete(g: Graph, emitted: set<(RelSet, RelSet)>, s: RelSet) {
    UnionPairs(g, s) <= emitted
  }

  ghost predicate Priced(g: Graph, cost: RelSet -> real, st: State, p: (RelSet, RelSet)) {
    var s := p.0 + p.1;
    && p.0 in st.plans && p.1 in st.plans && s in st.plans && s in st.costs
    && st.plans[s].cost <= cost(s) + st.plans[p.0].cost + st.plans[p.1].cost
    && Complete(g, st.emitted, p.0) && Complete(g, st.emitted, p.1)
  }

  ghost predicate Live(g: Graph, cost: RelSet -> real, st: State) {
    forall p :: p in st.emitted ==> Priced(g, cost, st, p)
  }

  predicate KeptOrCheaper(a: Plan, b: Plan) {
    b == a || b.cost < a.cost
  }

  // What no step of a run undoes. A plan gives way only to a strictly cheaper one, so the first of
  // equals stays; and once no pair for a set is left, its plan never changes again.
  ghost predicate Extends(g: Graph, st: State, st': State) {
    && st.emitted <= st'.emitted
    && st.done <= st'.done
    && st.pairs <= st'.pairs
    && st.plans.Keys <= st'.plans.Keys
    && st.asked <= st'.asked
    && (forall s :: s in st.plans ==> KeptOrCheaper(st.plans[s], st'.plans[s]))
    && forall s :: s in st.plans && Complete(g, st.emitted, s) ==> st'.plans[s] == st.plans[s]
  }

  // ------------------------------------------------------------ one emitted pair

  function Count(st: State, l: RelSet, r: RelSet): State {
    st.(pairs := st.pairs + 1, emitted := st.emitted + {(l, r)})
  }

  function Ask(st: State, cost: RelSet -> real, s: RelSet): State {
    if s in st.costs then st else st.(costs := st.costs[s := cost(s)], asked := st.asked + [s])
  }

  function Offer(st: State, s: RelSet, total: real, split: Split): State {
    if s in st.plans && st.plans[s].cost <= total then st
    else st.(plans := st.plans[s := Plan(total, Some(split))])
  }

  // A pair not yet counted, both of whose sides are planned.
  ghost predicate Fresh(g: Graph, st: State, l: RelSet, r: RelSet) {
    && (l, r) in CsgCmpPairs(g) && (l, r) !in st.emitted && l in st.done
    && l in st.plans && r in st.plans
  }

  lemma CountSound(g: Graph, cost: RelSet -> real, st: State, l: RelSet, r: RelSet)
    requires Sound(g, cost, st) && Fresh(g, st, l, r)
    ensures Sound(g, cost, Count(st, l, r))
    ensures Extends(g, st, Count(st, l, r))
  {
    var st' := Count(st, l, r);
    forall s | s in st'.plans
      ensures PlanOk(g, cost, st', s)
    {
      assert PlanOk(g, cost, st, s);
    }
  }

  lemma PairIsCompound(g: Graph, l: RelSet, r: RelSet)
    requires (l, r) in CsgCmpPairs(g)
    ensures Compound(g, l + r)
  {
  }

  lemma AskSound(g: Graph, cost: RelSet -> real, st: State, s: RelSet)
    requires Sound(g, cost, st) && Compound(g, s)
    ensures Sound(g, cost, Ask(st, cost, s))
    ensures Extends(g, st, Ask(st, cost, s))
  {
    var st' := Ask(st, cost, s);
    forall t | t in st'.plans
      ensures PlanOk(g, cost, st', t)
    {
      assert PlanOk(g, cost, st, t);
    }
  }

  // No emitted pair has `s` as a side.
  ghost predicate Unused(emitted: set<(RelSet, RelSet)>, s: RelSet) {
    forall p :: p in emitted ==> p.0 != s && p.1 != s
  }

  // While a pair for a set is still to come, nothing has been built on that set.
  lemma UnionUnused(g: Graph, cost: RelSet -> real, st: State, l: RelSet, r: RelSet)
    requires Live(g, cost, st) && (l, r) in CsgCmpPairs(g) && (l, r) !in st.emitted
    ensures Unused(Count(st, l, r).emitted, l + r)
  {
  }

  lemma OfferPlanOk(g: Graph, cost: RelSet -> real, st: State, l: RelSet, r: RelSet, e: nat, total: real, t: RelSet)
    requires t in st.plans ==> PlanOk(g, cost, st, t)
    requires (l, r) in st.emitted && l + r in ConnectedSets(g)
    requires l in st.plans && r in st.plans && IsFirstEdge(g, l, r, e)
    requires Unused(st.emitted, l + r)
    requires total == cost(l + r) + st.plans[l].cost + st.plans[r].cost
    requires t in Offer(st, l + r, total, Split(l, r, e)).plans
    ensures PlanOk(g, cost, Offer(st, l + r, total, Split(l, r, e)), t)
  {
  }

  lemma OfferSound(g: Graph, cost: RelSet -> real, st: State, l: RelSet, r: RelSet, e: nat, total: real)
    requires Sound(g, cost, st) && (l, r) in st.emitted
    requires l in st.plans && r in st.plans && IsFirstEdge(g, l, r, e)
    requires Unused(st.emitted, l + r)
    requires total == cost(l + r) + st.plans[l].cost + st.plans[r].cost
    ensures Sound(g, cost, Offer(st, l + r, total, Split(l, r, e)))
  {
    var st' := Offer(st, l + r, total, Split(l, r, e));
    PairIsCompound(g, l, r);
    forall t | t in st'.plans
      ensures PlanOk(g, cost, st', t)
    {
      OfferPlanOk(g, cost, st, l, r, e, total, t);
    }
  }

  lemma OfferLive(g: Graph, cost: RelSet -> real, st0: State, st: State, l: RelSet, r: RelSet, e: nat, total: real)
    requires Live(g, cost, st0) && Fresh(g, st0, l, r)
    requires Complete(g, st0.emitted, l) && Complete(g, st0.emitted, r)
    requires st == Ask(Count(st0, l, r), cost, l + r)
    requires Unused(st.emitted, l + r)
    requires total == cost(l + r) + st.plans[l].cost + st.plans[r].cost
    ensures var st' := Offer(st, l + r, total, Split(l, r, e));
            Live(g, cost, st') && Extends(g, st0, st')
  {
    var s := l + r;
    var st' := Offer(st, s, total, Split(l, r, e));
    forall p | p in st'.emitted
      ensures Priced(g, cost, st', p)
    {
      if p != (l, r) {
        assert Priced(g, cost, st0, p);
      }
    }
    PairsAre(g, l, r);
    assert (l, r) in UnionPairs(g, s);
  }

  lemma MemoIsRight(g: Graph, cost: RelSet -> real, st: State, s: RelSet)
    requires Sound(g, cost, st)
    ensures s in st.costs ==> st.costs[s] == cost(s)
    ensures s in st.asked <==> s in st.costs
  {
  }

  lemma ExtendsReflexive(g: Graph, st: State)
    ensures Extends(g, st, st)
  {
  }

  // What emitting a pair does to the state, the budget running out included.
  ghost function Emit(st: State, cost: RelSet -> real, maxPairs: nat, l: RelSet, r: RelSet, e: nat): State
    requires l in st.plans && r in st.plans
  {
    var counted := Count(st, l, r);
    if counted.pairs > maxPairs then counted
    else Offer(Ask(counted, cost, l + r), l + r, cost(l + r) + st.plans[l].cost + st.plans[r].cost, Split(l, r, e))
  }

  lemma EmitKeeps(g: Graph, cost: RelSet -> real, maxPairs: nat, st: State, l: RelSet, r: RelSet, e: nat)
    requires Sound(g, cost, st) && (st.pairs <= maxPairs ==> Live(g, cost, st))
    requires Fresh(g, st, l, r) && IsFirstEdge(g, l, r, e)
    requires st.pairs <= maxPairs ==> Complete(g, st.emitted, l) && Complete(g, st.emitted, r)
    ensures var st' := Emit(st, cost, maxPairs, l, r, e);
            && Sound(g, cost, st') && (st'.pairs <= maxPairs ==> Live(g, cost, st'))
            && Extends(g, st, st')
  {
    hide Sound, Live, Extends, IsFirstEdge, Complete, Compound, CsgCmpPairs, Unused;
    var counted := Count(st, l, r);
    CountSound(g, cost, st, l, r);
    if counted.pairs <= maxPairs {
      UnionUnused(g, cost, st, l, r);
      PairIsCompound(g, l, r);
      AskSound(g, cost, counted, l + r);
      var asked := Ask(counted, cost, l + r);
      var total := cost(l + r) + st.plans[l].cost + st.plans[r].cost;
      OfferSound(g, cost, asked, l, r, e, total);
      OfferLive(g, cost, st, asked, l, r, e, total);
    }
  }

  // ------------------------------------------------------------ what the table knows

  // While the budget lasts, a set none of whose pairs is left is planned exactly when it is
  // connected: the plan table is the connectivity test.
  lemma CompleteIsPlanned(g: Graph, cost: RelSet -> real, st: State, s: RelSet)
    requires Sound(g, cost, st) && Live(g, cost, st) && Complete(g, st.emitted, s)
    ensures s in st.plans <==> Connected(g, s)
  {
    if s in st.plans {
      assert PlanOk(g, cost, st, s);
    }
    if Connected(g, s) && s !in Singletons(g) {
      var l, r := CompoundSplits(g, s);
      PairsAre(g, l, r);
      assert (l, r) in UnionPairs(g, s);
      assert Priced(g, cost, st, (l, r));
    }
  }

  // A connected set of two or more relations is the union of some pair.
  lemma CompoundSplits(g: Graph, s: RelSet) returns (l: RelSet, r: RelSet)
    requires Connected(g, s) && s !in Singletons(g)
    ensures IsPair(g, l, r) && l + r == s
  {
    forall x | x in s && x < g.n
      ensures s != {x}
    {
      assert x in AllBelow(g.n);
    }
    l :| l < s && Splits(g, l, s) && Connected(g, l) && Connected(g, s - l);
    r := s - l;
    assert l + r == s;
    ConnectedInRange(g, l);
    ConnectedInRange(g, r);
    assert Min(l) != Min(r);
    if Min(r) < Min(l) {
      LinkedSymmetric(g, l, r);
      l, r := r, l;
    }
  }

  // ------------------------------------------------------------ reading the plans back

  // The tree a plan stands for.
  function Tree(g: Graph, cost: RelSet -> real, st: State, s: RelSet): (t: JoinTree)
    requires Sound(g, cost, st) && s in st.plans
    ensures Relations(t) == s
    ensures ValidTree(g, t) && NamesFirstEdges(g, t)
    ensures TreeCost(cost, t) == st.plans[s].cost
    decreases s
  {
    assert PlanOk(g, cost, st, s);
    match st.plans[s].split
    case None => LoneRelation(g, s); Rel(Min(s))
    case Some(Split(l, r, e)) =>
      assert Min(l) in s && Min(r) in s && Min(l) !in r && Min(r) !in l;
      Join(Tree(g, cost, st, l), Tree(g, cost, st, r), e)
  }

  lemma LoneRelation(g: Graph, s: RelSet)
    requires s in Singletons(g)
    ensures s != {} && s == {Min(s)} && Min(s) < g.n
  {
  }

  // The dynamic program is optimal: once every pair has been emitted, no tree beats the table.
  lemma {:induction false} NoTreeIsCheaper(g: Graph, cost: RelSet -> real, st: State, t: JoinTree)
    requires Sound(g, cost, st) && Live(g, cost, st) && st.emitted == CsgCmpPairs(g)
    requires ValidTree(g, t)
    ensures Relations(t) in st.plans
    ensures st.plans[Relations(t)].cost <= TreeCost(cost, t)
  {
    match t
    case Rel(r) =>
      assert r in AllBelow(g.n);
      assert Relations(t) in Singletons(g);
      LonePlanIsFree(g, cost, st, Relations(t));
    case Join(left, right, e) =>
      NoTreeIsCheaper(g, cost, st, left);
      NoTreeIsCheaper(g, cost, st, right);
      TreeConnects(g, left);
      TreeConnects(g, right);
      JoinIsPriced(g, cost, st, Relations(left), Relations(right));
  }

  lemma JoinIsPriced(g: Graph, cost: RelSet -> real, st: State, l: RelSet, r: RelSet)
    requires Live(g, cost, st) && st.emitted == CsgCmpPairs(g)
    requires Connected(g, l) && Connected(g, r) && l !! r && Linked(g, l, r)
    ensures l in st.plans && r in st.plans && l + r in st.plans
    ensures st.plans[l + r].cost <= cost(l + r) + st.plans[l].cost + st.plans[r].cost
  {
    ConnectedInRange(g, l);
    ConnectedInRange(g, r);
    assert Min(l) != Min(r);
    if Min(l) < Min(r) {
      PairsAre(g, l, r);
      assert Priced(g, cost, st, (l, r));
    } else {
      LinkedSymmetric(g, l, r);
      PairsAre(g, r, l);
      assert Priced(g, cost, st, (r, l));
      assert r + l == l + r;
    }
  }

  lemma LonePlanIsFree(g: Graph, cost: RelSet -> real, st: State, s: RelSet)
    requires Sound(g, cost, st) && s in Singletons(g)
    ensures s in st.plans && st.plans[s].cost == 0.0
  {
  }
}
