/**
  The enumeration itself: the four procedures of the solver as methods that update the plan
  table, the cost memo and the pair counter in place. Each method's contract says exactly which
  pairs (or subgraphs) it covers, and that it covers them in an order that finishes a set before
  anything is built on it.
 */
module Enumerate {
  import opened Basics
  import opened RelSets
  import opened Hypergraph
  import opened Regions
  import opened PlanTable
  import opened Coverage

  // The position of the first directed edge from inside `l` to inside `r`.
  function FindFrom(ds: seq<DirectedEdge>, l: RelSet, r: RelSet, k: nat): (at: Option<nat>)
    requires k <= |ds|
    ensures at.Some? ==>
              && k <= at.value < |ds|
              && ds[at.value].from <= l && ds[at.value].to <= r
              && forall j :: k <= j < at.value ==> !(ds[j].from <= l && ds[j].to <= r)
    ensures at.None? ==> forall j :: k <= j < |ds| ==> !(ds[j].from <= l && ds[j].to <= r)
    decreases |ds| - k
  {
    if k == |ds| then None
    else if ds[k].from <= l && ds[k].to <= r then Some(k)
    else FindFrom(ds, l, r, k + 1)
  }

  // The index under the first reading that leads from `l` into `r`, if any does.
  function EdgeBetween(ds: seq<DirectedEdge>, l: RelSet, r: RelSet): Option<nat> {
    match FindFrom(ds, l, r, 0)
    case None => None
    case Some(k) => Some(ds[k].edge)
  }

  // The edge named is the first in input order, and none is named only when none exists.
  lemma EdgeBetweenIsFirst(g: Graph, l: RelSet, r: RelSet)
    ensures match EdgeBetween(Directed(g.edges), l, r)
            case None => !Linked(g, l, r)
            case Some(e) => IsFirstEdge(g, l, r, e)
  {
    var ds := Directed(g.edges);
    var at := FindFrom(ds, l, r, 0);
    forall i | 0 <= i < |g.edges| && (at.Some? ==> 2 * i + 1 < at.value)
      ensures !Spans(g.edges[i], l, r)
    {
      var e := g.edges[i];
      assert ds[2 * i] == DirectedEdge(e.left, e.right, i);
      assert ds[2 * i + 1] == DirectedEdge(e.right, e.left, i);
    }
    if at.Some? {
      DirectedReads(g, ds[at.value]);
      var i := at.value / 2;
      var e := g.edges[i];
      assert ds[2 * i] == DirectedEdge(e.left, e.right, i);
      assert ds[2 * i + 1] == DirectedEdge(e.right, e.left, i);
      assert at.value == 2 * i || at.value == 2 * i + 1;
    }
  }

  lemma FirstEdgeLinks(g: Graph, l: RelSet, r: RelSet, e: nat)
    requires IsFirstEdge(g, l, r, e)
    ensures Linked(g, l, r)
  {
  }

  class Dp {
    const n: nat
    const directed: seq<DirectedEdge>
    const setCost: RelSet -> real
    const maxPairs: nat
    var costs: map<RelSet, real>
    var plans: map<RelSet, Plan>
    var pairs: nat
    var asked: seq<RelSet>

    ghost const g: Graph
    ghost var emitted: set<(RelSet, RelSet)>
    ghost var done: set<RelSet>

    ghost function View(): (st: State)
      reads this
      ensures st.emitted == emitted && st.done == done && st.plans == plans && st.asked == asked && st.pairs == pairs
    {
      State(plans, costs, asked, pairs, emitted, done)
    }

    predicate Exhausted()
      reads this
    {
      pairs > maxPairs
    }

    ghost predicate Wired()
      ensures Wired() ==> WellFormed(g) && n == g.n
    {
      WellFormed(g) && n == g.n && directed == Directed(g.edges)
    }

    ghost predicate Valid()
      reads this
      ensures Valid() ==> Wired()
    {
      && Wired()
      && Sound(g, setCost, View())
      && (!Exhausted() ==> Live(g, setCost, View()))
    }

    constructor (gr: Graph, cost: RelSet -> real, budget: nat)
      requires WellFormed(gr)
      ensures g == gr && setCost == cost && maxPairs == budget
      ensures Valid() && pairs == 0 && emitted == {} && done == {} && asked == []
    {
      n := gr.n;
      directed := Directed(gr.edges);
      setCost := cost;
      maxPairs := budget;
      costs := map[];
      pairs := 0;
      asked := [];
      g := gr;
      emitted := {};
      done := {};
      plans := map s | s in Singletons(gr) :: Plan(0.0, None);
      new;
      forall s | s in plans
        ensures PlanOk(g, setCost, View(), s)
      {
        var r :| r in AllBelow(g.n) && s == {r};
        assert r in s;
        assert Connected(g, s);
      }
    }

    /** N(S, X), accumulated edge by edge. */
    method NeighborhoodOf(s: RelSet, excluded: RelSet) returns (found: RelSet)
      requires Wired()
      ensures found == Neighborhood(g, s, excluded)
      ensures found !! s + excluded && found <= AllBelow(n)
    {
      found := {};
      for i := 0 to |directed|
        invariant found == EntryPoints(directed[..i], s, excluded)
      {
        hide EntryPoints;
        var d := directed[i];
        DirectedReads(g, d);
        assert EdgeOk(g.n, g.edges[d.edge]);
        EntersNext(directed, i, s, excluded);
        if d.from <= s && d.to !! s + excluded {
          found := found + {Min(d.to)};
        }
      }
      assert directed[..|directed|] == directed;
      NeighborhoodOutside(g, s, excluded);
    }

    /** The neighborhood of a set and its submasks in the order the loops take them. */
    method Growths(s: RelSet, excluded: RelSet) returns (neighbors: RelSet, subs: seq<RelSet>)
      requires Wired()
      ensures neighbors == Neighborhood(g, s, excluded) && ListsSubmasks(subs, neighbors)
      ensures neighbors !! s + excluded && neighbors <= AllBelow(n)
      ensures s != {} ==>
        Region(g, s, excluded) == Grown(g, s, subs, |subs|) + Deeper(g, s, excluded + neighbors, subs, |subs|)
    {
      neighbors := NeighborhoodOf(s, excluded);
      subs := Submasks(neighbors);
      if s != {} {
        RegionCover(g, s, excluded, neighbors, subs);
      }
    }

    /** Counts a pair, prices its union once, and keeps the cheaper of the union's plan and this
        split. */
    method EmitCsgCmp(left: RelSet, right: RelSet, edge: nat)
      requires Valid()
      requires Fresh(g, View(), left, right) && IsFirstEdge(g, left, right, edge)
      requires !Exhausted() ==> Complete(g, emitted, left) && Complete(g, emitted, right)
      modifies this
      ensures Valid()
      ensures emitted == old(emitted) + {(left, right)} && done == old(done) && pairs == old(pairs) + 1
      ensures Extends(g, old(View()), View())
      ensures Exhausted() ==> plans == old(plans) && asked == old(asked)
      ensures !Exhausted() ==>
                && left in old(plans) && right in old(plans)
                && var joined, before := left + right, old(plans);
                   var total := setCost(joined) + before[left].cost + before[right].cost;
                   plans == if joined in before && before[joined].cost <= total then before
                            else before[joined := Plan(total, Some(Split(left, right, edge)))]
      ensures !Exhausted() ==> asked == old(asked) + if left + right in old(asked) then [] else [left + right]
    {
      hide Sound, Live, Extends, IsFirstEdge, Complete, CsgCmpPairs;
      MemoIsRight(g, setCost, View(), left + right);
      EmitKeeps(g, setCost, maxPairs, View(), left, right, edge);
      pairs := pairs + 1;
      emitted := emitted + {(left, right)};
      if Exhausted() {
        return;
      }
      var joined := left + right;
      var own;
      if joined in costs {
        own := costs[joined];
      } else {
        own := setCost(joined);
        costs := costs[joined := own];
        asked := asked + [joined];
      }
      var cost := own + plans[left].cost + plans[right].cost;
      if joined !in plans || cost < plans[joined].cost {
        plans := plans[joined := Plan(cost, Some(Split(left, right, edge)))];
      }
      assert View() == old(Emit(View(), setCost, maxPairs, left, right, edge));
    }

    /** Emits the pair of `s` and `other` if `other` is planned and an edge links the two. */
    method EmitIfJoinable(s: RelSet, other: RelSet)
      requires Valid()
      requires Ready(g, View(), Exhausted(), s)
      requires other !! Shadow(s) && !((s, other) in emitted && (s, other) in CsgCmpPairs(g))
      modifies this
      ensures Valid() && (old(Exhausted()) ==> Exhausted())
      ensures Emits(g, old(View()), View(), Exhausted(), s, {other} * ConnectedSets(g))
    {
      hide Sound, Live, Extends, Ready, Emits, ConnectedSets, CsgCmpPairs, Fresh, IsFirstEdge, Linked, Complete,
           EdgeBetween, Shadow;
      EdgeBetweenIsFirst(g, s, other);
      ghost var st0, ex0 := View(), Exhausted();
      ExtendsReflexive(g, st0);
      var edge := EdgeBetween(directed, s, other);
      if other in plans && edge.Some? {
        FirstEdgeLinks(g, s, other, edge.value);
        LookupFresh(g, setCost, st0, ex0, s, other);
        EmitCsgCmp(s, other, edge.value);
      }
      LookupCovers(g, setCost, st0, View(), ex0, Exhausted(), s, other);
    }

    /** Every complement of `s` that strictly grows `other` away from `excluded`. */
    method EnumerateCmpRec(s: RelSet, other: RelSet, excluded: RelSet)
      requires Valid()
      requires Ready(g, View(), Exhausted(), s)
      requires other != {} && other <= AllBelow(n) && other !! Shadow(s) && Shadow(s) <= excluded
      requires TargetPairs(g, s, Region(g, other, excluded)) !! emitted
      modifies this
      ensures Valid() && (old(Exhausted()) ==> Exhausted())
      ensures Emits(g, old(View()), View(), Exhausted(), s, Region(g, other, excluded))
      decreases AllBelow(n) - (other + excluded)
    {
      hide *;
      var neighbors, subs := Growths(other, excluded);
      ghost var st0, ex0 := View(), Exhausted();
      ghost var region := Region(g, other, excluded);
      NoGrowthYet(g, other, excluded + neighbors, subs);
      EmitsNone(g, st0, ex0, s);
      for i := 0 to |subs|
        invariant Valid() && (ex0 ==> Exhausted())
        invariant Emits(g, st0, View(), Exhausted(), s, Grown(g, other, subs, i))
      {
        ghost var ts := Grown(g, other, subs, i);
        if Exhausted() {
          GrownWithin(g, other, excluded, neighbors, subs, i);
          EmitsCut(g, st0, View(), s, ts, region);
          return;
        }
        GrownStep(g, other, excluded, neighbors, subs, i);
        GrowthKeeps(other, excluded, neighbors, subs, i, AllBelow(n), Shadow(s));
        ReadyStays(g, st0, View(), ex0, Exhausted(), s, ts);
        NotYet(g, st0, View(), Exhausted(), s, ts, other + subs[i], region);
        ghost var st, ex := View(), Exhausted();
        EmitIfJoinable(s, other + subs[i]);
        EmitsThen(g, st0, st, View(), ex, Exhausted(), s, ts, {other + subs[i]} * ConnectedSets(g));
      }
      assert Grown(g, other, subs, |subs|)
        == Grown(g, other, subs, |subs|) + Deeper(g, other, excluded + neighbors, subs, 0);
      for i := 0 to |subs|
        invariant Valid() && (ex0 ==> Exhausted())
        invariant Emits(g, st0, View(), Exhausted(), s,
                  Grown(g, other, subs, |subs|) + Deeper(g, other, excluded + neighbors, subs, i))
      {
        ghost var ts := Grown(g, other, subs, |subs|) + Deeper(g, other, excluded + neighbors, subs, i);
        ghost var part := Region(g, other + subs[i], excluded + neighbors);
        DeeperStep(g, other, excluded, neighbors, subs, i);
        GrowthKeeps(other, excluded, neighbors, subs, i, AllBelow(n), Shadow(s));
        ReadyStays(g, st0, View(), ex0, Exhausted(), s, ts);
        TargetsApart(g, st0, View(), Exhausted(), s, ts, part, region);
        ghost var st, ex := View(), Exhausted();
        EnumerateCmpRec(s, other + subs[i], excluded + neighbors);
        EmitsThen(g, st0, st, View(), ex, Exhausted(), s, ts, part);
        assert ts + part == Grown(g, other, subs, |subs|) + Deeper(g, other, excluded + neighbors, subs, i + 1);
      }
    }

    /** The complements of `s` grown from one seed. A seed is a single relation and so always
        planned. */
    method EmitFromSeed(s: RelSet, r: nat, excluded: RelSet)
      requires Valid()
      requires Ready(g, View(), Exhausted(), s)
      requires r < n && r !in Shadow(s) && Shadow(s) <= excluded && {r} in ConnectedSets(g)
      requires TargetPairs(g, s, {{r}} + Region(g, {r}, excluded)) !! emitted
      modifies this
      ensures Valid() && (old(Exhausted()) ==> Exhausted())
      ensures Emits(g, old(View()), View(), Exhausted(), s, {{r}} + Region(g, {r}, excluded))
    {
      hide *;
      ghost var part := Region(g, {r}, excluded);
      ghost var st0, ex0 := View(), Exhausted();
      assert {{r}} * ConnectedSets(g) == {{r}};
      EmitsNone(g, st0, ex0, s);
      NotYet(g, st0, st0, ex0, s, {}, {r}, {{r}} + part);
      EmitIfJoinable(s, {r});
      ghost var st, ex := View(), Exhausted();
      ReadyStays(g, st0, st, ex0, ex, s, {{r}});
      SeedNotInRegion(g, {r}, excluded);
      TargetsApart(g, st0, st, ex, s, {{r}}, part, {{r}} + part);
      EnumerateCmpRec(s, {r}, excluded);
      EmitsThen(g, st0, st, View(), ex, Exhausted(), s, {{r}}, part);
    }

    /** Adds to the emitted pairs exactly those with `s` as the first side, unless the budget runs out. */
    method EmitCsg(s: RelSet)
      requires Valid() && Settled(g, View(), Exhausted())
      requires s != {} && s in plans && s !in done
      requires !Exhausted() ==> Complete(g, emitted, s) && AboveDone(g, done, Min(s))
      modifies this
      ensures Valid() && (old(Exhausted()) ==> Exhausted())
      ensures Finishes(g, old(View()), View(), Exhausted(), {s})
    {
      hide Sound, Live, Settled, Complete, AboveDone, Ready, PairsFrom;
      ghost var st0, ex0 := View(), Exhausted();
      BeginSound(g, setCost, st0, s);
      BeginSubgraph(g, setCost, st0, ex0, s);
      done := done + {s};
      assert View() == st0.(done := st0.done + {s});
      assert Valid();
      hide *;
      var excluded := s + BelowOrAt(Min(s));
      var neighbors := NeighborhoodOf(s, excluded);
      ghost var st1 := View();
      NoSeedYet(g, excluded, neighbors);
      EmitsNone(g, st1, ex0, s);
      TargetsAreFrom(g, s, ConnectedSets(g));
      for r := n downto 0
        invariant Valid() && (ex0 ==> Exhausted())
        invariant Emits(g, st1, View(), Exhausted(), s, Seeded(g, excluded, neighbors, r))
      {
        SeedStep(g, excluded, neighbors, r);
        if r in neighbors {
          ghost var ts, st, ex := Seeded(g, excluded, neighbors, r + 1), View(), Exhausted();
          ghost var part := {{r}} + Region(g, {r}, excluded + neighbors * BelowOrAt(r));
          ReadyStays(g, st1, st, ex0, ex, s, ts);
          RegionConnected(g, {r}, excluded + neighbors * BelowOrAt(r));
          TargetsApart(g, st1, st, ex, s, ts, part, ConnectedSets(g));
          EmitFromSeed(s, r, excluded + neighbors * BelowOrAt(r));
          EmitsThen(g, st1, st, View(), ex, Exhausted(), s, ts, part);
          assert ts + part == ts + {{r}} + Region(g, {r}, excluded + neighbors * BelowOrAt(r));
        }
      }
      ReadyMember(g, st1, ex0, s);
      SeedCover(g, s, neighbors);
      EmittedOne(g, st0, View(), ex0, Exhausted(), s, Seeded(g, excluded, neighbors, 0));
    }

    /** Every connected set that strictly grows `s` away from `excluded`. */
    method EnumerateCsgRec(s: RelSet, excluded: RelSet)
      requires Valid() && Settled(g, View(), Exhausted())
      requires s != {} && s <= AllBelow(n)
      requires Region(g, s, excluded) !! done
      requires !Exhausted() ==> Earlier(g, done, s, excluded) && AboveDone(g, done, Min(s))
      requires BelowOrAt(Min(s)) <= excluded
      modifies this
      ensures Valid() && (old(Exhausted()) ==> Exhausted())
      ensures Finishes(g, old(View()), View(), Exhausted(), Region(g, s, excluded))
      decreases AllBelow(n) - (s + excluded)
    {
      hide *;
      var neighbors, subs := Growths(s, excluded);
      ghost var st0, ex0 := View(), Exhausted();
      ghost var region := Region(g, s, excluded);
      NoGrowthYet(g, s, excluded + neighbors, subs);
      FinishesNone(g, st0, ex0);
      for i := 0 to |subs|
        invariant Valid() && (ex0 ==> Exhausted())
        invariant Finishes(g, st0, View(), Exhausted(), Grown(g, s, subs, i))
      {
        ghost var ts, st, ex := Grown(g, s, subs, i), View(), Exhausted();
        if Exhausted() {
          GrownWithin(g, s, excluded, neighbors, subs, i);
          FinishesCut(g, st0, View(), ts, region);
          return;
        }
        GrownStep(g, s, excluded, neighbors, subs, i);
        LiveState();
        GrownDecides(g, setCost, st0, st, s, excluded, neighbors, subs, i);
        GrowthKeepsMin(s, excluded, neighbors, subs, i);
        ConnectedIsMember(g, s + subs[i]);
        if s + subs[i] in plans {
          FinishesIsSettled(g, st0, st, ex, ts);
          AboveDoneStays(g, st0, st, ex, ts, Min(s));
          EmitCsg(s + subs[i]);
          FinishesThen(g, st0, st, View(), ex, Exhausted(), ts, {s + subs[i]});
          assert {s + subs[i]} * ConnectedSets(g) == {s + subs[i]};
        } else {
          assert ts == ts + {s + subs[i]} * ConnectedSets(g);
        }
      }
      assert Grown(g, s, subs, |subs|) == Grown(g, s, subs, |subs|) + Deeper(g, s, excluded + neighbors, subs, 0);
      for i := 0 to |subs|
        invariant Valid() && (ex0 ==> Exhausted())
        invariant Finishes(g, st0, View(), Exhausted(),
                  Grown(g, s, subs, |subs|) + Deeper(g, s, excluded + neighbors, subs, i))
      {
        ghost var ts := Grown(g, s, subs, |subs|) + Deeper(g, s, excluded + neighbors, subs, i);
        ghost var st, ex := View(), Exhausted();
        ghost var part := Region(g, s + subs[i], excluded + neighbors);
        DeeperStep(g, s, excluded, neighbors, subs, i);
        GrowthKeeps(s, excluded, neighbors, subs, i, AllBelow(n), {});
        GrowthKeepsMin(s, excluded, neighbors, subs, i);
        FinishesIsSettled(g, st0, st, ex, ts);
        if !ex {
          EarlierForDeeper(g, st0.done, s, excluded, neighbors, subs, i);
          AboveDoneStays(g, st0, st, ex, ts, Min(s));
        }
        assert !ex ==> done == st0.done + Grown(g, s, subs, |subs|) + Deeper(g, s, excluded + neighbors, subs, i);
        EnumerateCsgRec(s + subs[i], excluded + neighbors);
        FinishesThen(g, st0, st, View(), ex, Exhausted(), ts, part);
        assert ts + part == Grown(g, s, subs, |subs|) + Deeper(g, s, excluded + neighbors, subs, i + 1);
      }
    }

    /** One round of the outer loop: every subgraph whose lowest relation is `r`. */
    method EnumerateFrom(r: nat)
      requires Valid() && Settled(g, View(), Exhausted()) && !Exhausted()
      requires r < n && done == ConnectedFrom(g, r + 1)
      modifies this
      ensures Valid() && Settled(g, View(), Exhausted())
      ensures Extends(g, old(View()), View())
      ensures !Exhausted() ==> done == ConnectedFrom(g, r)
    {
      hide *;
      LiveState();
      RoundBegins(g, setCost, View(), r);
      ghost var st0 := View();
      ghost var region := Region(g, {r}, BelowOrAt(r));
      EmitCsg({r});
      ghost var st1, ex1 := View(), Exhausted();
      FinishesIsSettled(g, st0, st1, ex1, {{r}});
      RoundContinues(g, st0.done, st1.done, r);
      EnumerateCsgRec({r}, BelowOrAt(r));
      FinishesThen(g, st0, st1, View(), ex1, Exhausted(), {{r}}, region);
      FinishesIsSettled(g, st0, View(), Exhausted(), {{r}} + region);
      RoundEnds(g, r);
    }

    /** The whole enumeration: rounds from the highest relation down. False if the budget ran
        out. */
    method Run() returns (completed: bool)
      requires Valid() && emitted == {} && done == {} && !Exhausted()
      modifies this
      ensures Valid()
      ensures completed <==> !Exhausted()
      ensures completed ==> emitted == CsgCmpPairs(g)
    {
      hide *;
      SettledAtStart(g, View());
      ConnectedFromTop(g);
      for r := n downto 0
        invariant Valid() && Settled(g, View(), Exhausted()) && !Exhausted()
        invariant done == ConnectedFrom(g, r)
      {
        EnumerateFrom(r);
        if Exhausted() {
          return false;
        }
      }
      AllSettled(g, View());
      return true;
    }

    lemma LiveState()
      requires Valid()
      ensures Sound(g, setCost, View()) && (!Exhausted() ==> Live(g, setCost, View()))
    {
    }
  }
}
