/**
  What the four procedures promise each other, over states as values: which pairs a call emits
  (`Emits`), which subgraphs it finishes (`Finishes`), and what must already be finished when it
  starts (`Earlier`, `AboveDone`). The lemmas turn those promises into the two facts the code
  relies on: a set looked up in the plan table has none of its pairs left to come, and no pair
  is ever emitted twice.
 */
module Coverage {
  import opened RelSets
  import opened Hypergraph
  import opened Regions
  import opened PlanTable

  ghost function TargetPairs(g: Graph, s: RelSet, ts: set<RelSet>): set<(RelSet, RelSet)> {
    set p | p in CsgCmpPairs(g) && p.0 == s && p.1 in ts
  }

  ghost function PairsFrom(g: Graph, ds: set<RelSet>): set<(RelSet, RelSet)> {
    set p | p in CsgCmpPairs(g) && p.0 in ds
  }

  // From `a` to `b` exactly the pairs of `s` with the sets `ts` were emitted, or some of them
  // if the budget ran out.
  ghost predicate Emits(g: Graph, a: State, b: State, exhausted: bool, s: RelSet, ts: set<RelSet>) {
    && Extends(g, a, b)
    && b.done == a.done
    && b.emitted <= a.emitted + TargetPairs(g, s, ts)
    && (!exhausted ==> b.emitted == a.emitted + TargetPairs(g, s, ts))
  }

  lemma EmitsNone(g: Graph, a: State, exhausted: bool, s: RelSet)
    ensures Emits(g, a, a, exhausted, s, {})
  {
  }

  // A target not covered yet has not been emitted with.
  lemma NotYet(g: Graph, a: State, b: State, exhausted: bool, s: RelSet, ts: set<RelSet>, t: RelSet, all: set<RelSet>)
    requires Emits(g, a, b, exhausted, s, ts) && t !in ts
    requires {t} * ConnectedSets(g) <= all
    requires TargetPairs(g, s, all) !! a.emitted
    ensures !((s, t) in b.emitted && (s, t) in CsgCmpPairs(g))
  {
  }

  lemma EmitsThen(g: Graph, a: State, b: State, c: State, exB: bool, exC: bool, s: RelSet,
                  ts: set<RelSet>, us: set<RelSet>)
    requires Emits(g, a, b, exB, s, ts) && Emits(g, b, c, exC, s, us)
    requires exB ==> exC
    ensures Emits(g, a, c, exC, s, ts + us)
  {
  }

  // Stopping early is within what was promised.
  lemma EmitsCut(g: Graph, a: State, b: State, s: RelSet, ts: set<RelSet>, us: set<RelSet>)
    requires Emits(g, a, b, true, s, ts) && ts <= us
    ensures Emits(g, a, b, true, s, us)
  {
  }

  // Growing the promise by a step that keeps it.
  lemma OneTarget(g: Graph, s: RelSet, t: RelSet)
    ensures TargetPairs(g, s, {t} * ConnectedSets(g)) == {(s, t)} * CsgCmpPairs(g)
  {
  }

  // Sets apart give pairs apart.
  lemma TargetsApart(g: Graph, a: State, b: State, exhausted: bool, s: RelSet,
                     ts: set<RelSet>, us: set<RelSet>, all: set<RelSet>)
    requires Emits(g, a, b, exhausted, s, ts) && ts !! us && us <= all
    requires TargetPairs(g, s, all) !! a.emitted
    ensures TargetPairs(g, s, us) !! b.emitted
  {
  }

  // ------------------------------------------------------------ one subgraph's complements

  // Every connected set above `r` has all its pairs behind it.
  ghost predicate AboveComplete(g: Graph, emitted: set<(RelSet, RelSet)>, r: nat) {
    forall t :: t in ConnectedSets(g) && t !! BelowOrAt(r) ==> Complete(g, emitted, t)
  }

  // `s` is a subgraph whose complements may be enumerated.
  ghost predicate Ready(g: Graph, st: State, exhausted: bool, s: RelSet)
    ensures Ready(g, st, exhausted, s) ==> s != {}
  {
    && s != {} && s in ConnectedSets(g) && s in st.plans && s in st.done
    && (!exhausted ==> Complete(g, st.emitted, s) && AboveComplete(g, st.emitted, Min(s)))
  }

  lemma ReadyStays(g: Graph, a: State, b: State, exA: bool, exB: bool, s: RelSet, ts: set<RelSet>)
    requires Ready(g, a, exA, s) && Emits(g, a, b, exB, s, ts) && (exA ==> exB)
    ensures Ready(g, b, exB, s)
  {
  }

  lemma ReadyMember(g: Graph, st: State, exhausted: bool, s: RelSet)
    requires Ready(g, st, exhausted, s)
    ensures s in ConnectedSets(g)
  {
  }

  // A complement of `s` lies above its lowest relation and apart from it.
  ghost function Shadow(s: RelSet): (x: RelSet)
    requires s != {}
    ensures x == s + BelowOrAt(Min(s))
  {
    s + BelowOrAt(Min(s))
  }

  lemma PairWith(g: Graph, s: RelSet, t: RelSet)
    requires s != {} && s in ConnectedSets(g)
    ensures (s, t) in CsgCmpPairs(g) <==> t in ConnectedSets(g) && t !! Shadow(s) && Linked(g, s, t)
  {
  }

  // What looking `t` up decides: with budget left, a set with a plan and an edge to `s` is
  // exactly a pair.
  lemma LookupDecides(g: Graph, cost: RelSet -> real, st: State, s: RelSet, t: RelSet)
    requires Sound(g, cost, st) && Live(g, cost, st) && Ready(g, st, false, s) && t !! Shadow(s)
    ensures t in st.plans && Linked(g, s, t) <==> (s, t) in CsgCmpPairs(g)
  {
    PairWith(g, s, t);
    if t in st.plans {
      assert PlanOk(g, cost, st, t);
    }
    if t in ConnectedSets(g) {
      assert t !! BelowOrAt(Min(s));
      CompleteIsPlanned(g, cost, st, t);
    }
  }

  // Looking `t` up and emitting the pair if both are there covers exactly `t`.
  lemma LookupCovers(g: Graph, cost: RelSet -> real, a: State, b: State, exA: bool, exB: bool, s: RelSet, t: RelSet)
    requires Sound(g, cost, a) && (!exA ==> Live(g, cost, a)) && Ready(g, a, exA, s) && t !! Shadow(s)
    requires exA ==> exB
    requires Extends(g, a, b) && b.done == a.done
    requires b.emitted == a.emitted + if t in a.plans && Linked(g, s, t) then {(s, t)} else {}
    ensures Emits(g, a, b, exB, s, {t} * ConnectedSets(g))
  {
    OneTarget(g, s, t);
    if !exA {
      LookupDecides(g, cost, a, s, t);
    } else {
      PairWith(g, s, t);
      if t in a.plans {
        assert PlanOk(g, cost, a, t);
      }
    }
  }

  // A looked-up set with an edge is a pair not counted before.
  lemma LookupFresh(g: Graph, cost: RelSet -> real, st: State, exhausted: bool, s: RelSet, t: RelSet)
    requires Sound(g, cost, st) && Ready(g, st, exhausted, s) && t !! Shadow(s)
    requires t in st.plans && Linked(g, s, t) && !((s, t) in st.emitted && (s, t) in CsgCmpPairs(g))
    ensures Fresh(g, st, s, t)
    ensures !exhausted ==> Complete(g, st.emitted, s) && Complete(g, st.emitted, t)
  {
    assert PlanOk(g, cost, st, t);
    PairWith(g, s, t);
    assert t !! BelowOrAt(Min(s));
  }

  // ------------------------------------------------------------ seeds

  // The complements grown from seed `v`: those whose lowest neighbor is `v`.
  predicate SeededAt(t: RelSet, x: RelSet, nb: RelSet, v: nat) {
    t == {v} || Beyond(t, {v}, x + nb * BelowOrAt(v))
  }

  ghost function Seeded(g: Graph, x: RelSet, nb: RelSet, from: nat): set<RelSet> {
    set t | t in ConnectedSets(g) && exists v :: v in nb && v >= from && SeededAt(t, x, nb, v)
  }

  lemma NoSeedYet(g: Graph, x: RelSet, nb: RelSet)
    requires nb <= AllBelow(g.n)
    ensures Seeded(g, x, nb, g.n) == {}
  {
  }

  lemma SeedStep(g: Graph, x: RelSet, nb: RelSet, v: nat)
    requires WellFormed(g) && nb <= AllBelow(g.n)
    ensures v !in nb ==> Seeded(g, x, nb, v) == Seeded(g, x, nb, v + 1)
    ensures v in nb ==>
              var part := Region(g, {v}, x + nb * BelowOrAt(v));
              && {v} in ConnectedSets(g)
              && {v} !in Seeded(g, x, nb, v + 1)
              && part !! Seeded(g, x, nb, v + 1) + {{v}}
              && Seeded(g, x, nb, v) == Seeded(g, x, nb, v + 1) + {{v}} + part
  {
    var part := Region(g, {v}, x + nb * BelowOrAt(v));
    if v in nb {
      assert v in {v};
      assert Connected(g, {v});
      forall t | t == {v} || t in part
        ensures t !in Seeded(g, x, nb, v + 1)
      {
        LaterSeedsMiss(x, nb, v, t);
      }
      SeededFrom(g, x, nb, v);
    }
  }

  // The sets seeded from v on are those seeded at v and those seeded later.
  lemma SeededFrom(g: Graph, x: RelSet, nb: RelSet, v: nat)
    requires v in nb && {v} in ConnectedSets(g)
    ensures Seeded(g, x, nb, v) == Seeded(g, x, nb, v + 1) + {{v}} + Region(g, {v}, x + nb * BelowOrAt(v))
  {
    hide ConnectedSets, BelowOrAt;
    forall t | t in ConnectedSets(g)
      ensures t in Seeded(g, x, nb, v) <==> t in Seeded(g, x, nb, v + 1) || SeededAt(t, x, nb, v)
    {
    }
  }

  lemma LaterSeedsMiss(x: RelSet, nb: RelSet, v: nat, t: RelSet)
    requires v in nb && v in t
    ensures forall w :: w in nb && w >= v + 1 ==> !SeededAt(t, x, nb, w)
  {
    forall w | w in nb && w >= v + 1
      ensures !SeededAt(t, x, nb, w)
    {
      assert v in t * (x + nb * BelowOrAt(w));
    }
  }

  // Every complement of `s` is grown from some seed.
  lemma SeedCover(g: Graph, s: RelSet, nb: RelSet)
    requires WellFormed(g) && s != {} && s in ConnectedSets(g)
    requires nb == Neighborhood(g, s, Shadow(s))
    ensures TargetPairs(g, s, Seeded(g, Shadow(s), nb, 0)) == PairsFrom(g, {s})
  {
    forall p | p in PairsFrom(g, {s})
      ensures p.1 in Seeded(g, Shadow(s), nb, 0)
    {
      SeedOf(g, s, nb, p.1);
    }
  }

  lemma SeedOf(g: Graph, s: RelSet, nb: RelSet, t: RelSet)
    requires WellFormed(g) && s != {} && s in ConnectedSets(g)
    requires nb == Neighborhood(g, s, Shadow(s))
    requires (s, t) in CsgCmpPairs(g)
    ensures t in Seeded(g, Shadow(s), nb, 0)
  {
    EntryOf(g, s, nb, t);
    hide Neighborhood, CsgCmpPairs;
    var v := Min(t * nb);
    var x := Shadow(s) + nb * BelowOrAt(v);
    PairWith(g, s, t);
    forall y | y in t * x
      ensures y in {v}
    {
      assert y in nb && y <= v;
      assert y in t * nb;
    }
    assert SeededAt(t, Shadow(s), nb, v) by {
      assert v in t;
      assert {v} <= t;
    }
  }

  // A complement meets the neighborhood: the edge to it enters there.
  lemma EntryOf(g: Graph, s: RelSet, nb: RelSet, t: RelSet)
    requires WellFormed(g) && s != {} && s in ConnectedSets(g)
    requires nb == Neighborhood(g, s, Shadow(s))
    requires (s, t) in CsgCmpPairs(g)
    ensures t * nb != {}
  {
  }

  // ------------------------------------------------------------ subgraphs in order

  ghost predicate Settled(g: Graph, st: State, exhausted: bool) {
    !exhausted ==> st.emitted == PairsFrom(g, st.done)
  }

  // From `a` to `b` exactly the subgraphs `ts` were finished, or some if the budget ran out.
  ghost predicate Finishes(g: Graph, a: State, b: State, exhausted: bool, ts: set<RelSet>) {
    && Extends(g, a, b)
    && b.done <= a.done + ts
    && (!exhausted ==> b.done == a.done + ts)
    && Settled(g, b, exhausted)
  }

  lemma FinishesThen(g: Graph, a: State, b: State, c: State, exB: bool, exC: bool, ts: set<RelSet>, us: set<RelSet>)
    requires Finishes(g, a, b, exB, ts) && Finishes(g, b, c, exC, us)
    requires exB ==> exC
    ensures Finishes(g, a, c, exC, ts + us)
  {
  }

  lemma FinishesNone(g: Graph, a: State, exhausted: bool)
    requires Settled(g, a, exhausted)
    ensures Finishes(g, a, a, exhausted, {})
  {
  }

  lemma FinishesCut(g: Graph, a: State, b: State, ts: set<RelSet>, us: set<RelSet>)
    requires Finishes(g, a, b, true, ts) && ts <= us
    ensures Finishes(g, a, b, true, us)
  {
  }

  lemma FinishesIsSettled(g: Graph, a: State, b: State, exhausted: bool, ts: set<RelSet>)
    requires Finishes(g, a, b, exhausted, ts)
    ensures Settled(g, b, exhausted)
    ensures b.done <= a.done + ts
    ensures !exhausted ==> b.done == a.done + ts
  {
  }

  lemma BeginSound(g: Graph, cost: RelSet -> real, st: State, s: RelSet)
    requires Sound(g, cost, st) && s in st.plans
    ensures var st' := st.(done := st.done + {s});
            Sound(g, cost, st') && (Live(g, cost, st) ==> Live(g, cost, st'))
  {
    hide CsgCmpPairs, ConnectedSets, Singletons, CostsOk, IsFirstEdge, Complete;
    var st' := st.(done := st.done + {s});
    assert PlanOk(g, cost, st, s);
    forall t | t in st'.plans
      ensures PlanOk(g, cost, st', t)
    {
      assert PlanOk(g, cost, st, t);
    }
    CostsDoneFree(g, cost, st, st.done + {s});
    if Live(g, cost, st) {
      forall p | p in st'.emitted
        ensures Priced(g, cost, st', p)
      {
        assert Priced(g, cost, st, p);
      }
    }
  }

  lemma CostsDoneFree(g: Graph, cost: RelSet -> real, st: State, done: set<RelSet>)
    requires CostsOk(g, cost, st)
    ensures CostsOk(g, cost, st.(done := done))
  {
  }

  // A planned set, every smaller one finished, may have its complements enumerated; none of its
  // pairs has been emitted.
  lemma BeginSubgraph(g: Graph, cost: RelSet -> real, st: State, exhausted: bool, s: RelSet)
    requires Sound(g, cost, st) && (!exhausted ==> Live(g, cost, st)) && Settled(g, st, exhausted)
    requires s != {} && s in st.plans && s !in st.done
    requires !exhausted ==> Complete(g, st.emitted, s) && AboveDone(g, st.done, Min(s))
    ensures var st' := st.(done := st.done + {s});
            Ready(g, st', exhausted, s) && PairsFrom(g, {s}) !! st'.emitted
  {
    hide CsgCmpPairs, Complete;
    assert PlanOk(g, cost, st, s);
    if !exhausted {
      AboveDoneCompletes(g, st, Min(s));
    }
  }

  lemma TargetsAreFrom(g: Graph, s: RelSet, ts: set<RelSet>)
    ensures TargetPairs(g, s, ts) <= PairsFrom(g, {s})
  {
  }

  lemma EmittedOne(g: Graph, a: State, b: State, exA: bool, exB: bool, s: RelSet, ts: set<RelSet>)
    requires Settled(g, a, exA) && (exA ==> exB)
    requires Emits(g, a.(done := a.done + {s}), b, exB, s, ts)
    requires TargetPairs(g, s, ts) == PairsFrom(g, {s})
    ensures Finishes(g, a, b, exB, {s})
  {
  }

  // Every connected set above `r` is finished.
  ghost predicate AboveDone(g: Graph, done: set<RelSet>, r: nat) {
    forall t :: t in ConnectedSets(g) && t !! BelowOrAt(r) ==> t in done
  }

  // What is finished before the supersets of `s` away from `x` are begun: every other
  // connected set those supersets could contain.
  ghost predicate Earlier(g: Graph, done: set<RelSet>, s: RelSet, x: RelSet) {
    forall l :: l in ConnectedSets(g) && l * x <= s && !(s < l) ==> l in done
  }

  lemma AboveDoneCompletes(g: Graph, st: State, r: nat)
    requires Settled(g, st, false) && AboveDone(g, st.done, r)
    ensures AboveComplete(g, st.emitted, r)
  {
  }

  // With everything earlier finished, `t` has no pair left to come.
  lemma EarlierCompletes(g: Graph, st: State, t: RelSet)
    requires Settled(g, st, false)
    requires forall l :: l in ConnectedSets(g) && l < t ==> l in st.done
    ensures Complete(g, st.emitted, t)
  {
  }

  // Before the i-th growth of `s` is looked up, every connected set strictly inside it is
  // finished: the ascending order of submasks at work.
  lemma EarlierForGrown(
      g: Graph, done0: set<RelSet>, s: RelSet, x: RelSet, nb: RelSet, subs: seq<RelSet>, i: nat, l: RelSet)
    requires nb !! s + x && ListsSubmasks(subs, nb) && i < |subs|
    requires Earlier(g, done0, s, x)
    requires l in ConnectedSets(g) && l < s + subs[i]
    ensures l in done0 + Grown(g, s, subs, i)
  {
    assert subs[i] in subs;
    forall y | y in l * x ensures y in s { assert y in s + subs[i]; }
    if s < l {
      var sub := l * nb;
      assert l == s + sub;
      assert sub != {} by { var y :| y in l && y !in s; assert y in sub; }
      assert sub in subs;
      var j :| 0 <= j < |subs| && subs[j] == sub;
      assert sub <= subs[i] by { forall y | y in sub ensures y in subs[i] { assert y in s + subs[i]; } }
      assert j <= i;
      assert j != i;
    }
  }

  // So the plan table decides whether that growth is connected, and if it is, its complements
  // may be enumerated.
  lemma GrownDecides(
      g: Graph, cost: RelSet -> real, st0: State, st: State, s: RelSet, x: RelSet, nb: RelSet, subs: seq<RelSet>,
      i: nat)
    requires nb !! s + x && ListsSubmasks(subs, nb) && i < |subs|
    requires Earlier(g, st0.done, s, x)
    requires Sound(g, cost, st) && Live(g, cost, st) && Finishes(g, st0, st, false, Grown(g, s, subs, i))
    ensures var t := s + subs[i];
            Complete(g, st.emitted, t) && (t in st.plans <==> Connected(g, t))
  {
    var t := s + subs[i];
    forall l | l in ConnectedSets(g) && l < t
      ensures l in st.done
    {
      EarlierForGrown(g, st0.done, s, x, nb, subs, i, l);
    }
    EarlierCompletes(g, st, t);
    CompleteIsPlanned(g, cost, st, t);
  }

  lemma PlannedIsConnected(g: Graph, cost: RelSet -> real, st: State, s: RelSet)
    requires Sound(g, cost, st) && s in st.plans
    ensures s in ConnectedSets(g)
  {
    assert PlanOk(g, cost, st, s);
  }

  lemma ConnectedIsMember(g: Graph, s: RelSet)
    ensures Connected(g, s) <==> s in ConnectedSets(g)
  {
  }

  lemma AboveDoneStays(g: Graph, a: State, b: State, exhausted: bool, ts: set<RelSet>, r: nat)
    requires AboveDone(g, a.done, r) && Finishes(g, a, b, exhausted, ts)
    ensures AboveDone(g, b.done, r)
  {
  }

  // Before the i-th growth of `s` is itself grown, what that needs is finished.
  lemma EarlierForDeeper(g: Graph, done0: set<RelSet>, s: RelSet, x: RelSet, nb: RelSet, subs: seq<RelSet>, i: nat)
    requires WellFormed(g) && s != {} && nb == Neighborhood(g, s, x)
    requires nb !! s + x && ListsSubmasks(subs, nb) && i < |subs|
    requires Earlier(g, done0, s, x)
    ensures Earlier(g, done0 + Grown(g, s, subs, |subs|) + Deeper(g, s, x + nb, subs, i), s + subs[i], x + nb)
  {
    var done := done0 + Grown(g, s, subs, |subs|) + Deeper(g, s, x + nb, subs, i);
    assert subs[i] in subs;
    forall l | l in ConnectedSets(g) && l * (x + nb) <= s + subs[i] && !(s + subs[i] < l)
      ensures l in done
    {
      forall y | y in l * x ensures y in s { assert y in l * (x + nb); assert y in s + subs[i]; }
      if s < l {
        var sub := l * nb;
        assert sub <= subs[i] by {
          forall y | y in sub ensures y in subs[i] { assert y in l * (x + nb); assert y in s + subs[i]; }
        }
        Reaches(g, s, x, l);
        DeeperOrGrown(g, s, x, nb, subs, i, l);
      }
    }
  }

  lemma DeeperOrGrown(g: Graph, s: RelSet, x: RelSet, nb: RelSet, subs: seq<RelSet>, i: nat, l: RelSet)
    requires nb !! s + x && ListsSubmasks(subs, nb) && i < |subs|
    requires l in ConnectedSets(g) && Beyond(l, s, x) && l * nb <= subs[i] && !(s + subs[i] < l)
    requires l * nb != {}
    ensures l in Grown(g, s, subs, |subs|) + Deeper(g, s, x + nb, subs, i)
  {
    var sub := l * nb;
    assert sub in subs;
    PartOf(g, s, x, nb, l, sub);
    var j :| 0 <= j < |subs| && subs[j] == sub;
    assert j <= i;
    if l != s + sub {
      assert Beyond(l, s + sub, x + nb);
      assert j != i;
    }
  }

  // ------------------------------------------------------------ rounds

  // The connected sets with no relation below `r`.
  ghost function ConnectedFrom(g: Graph, r: nat): set<RelSet> {
    set t | t in ConnectedSets(g) && t !! AllBelow(r)
  }

  lemma SettledAtStart(g: Graph, st: State)
    requires st.emitted == {} && st.done == {}
    ensures Settled(g, st, false)
  {
  }

  lemma ConnectedFromTop(g: Graph)
    ensures ConnectedFrom(g, g.n) == {}
  {
  }

  lemma RoundBegins(g: Graph, cost: RelSet -> real, st: State, r: nat)
    requires Sound(g, cost, st) && r < g.n && st.done == ConnectedFrom(g, r + 1)
    ensures {r} in st.plans && {r} in ConnectedSets(g) && {r} !in st.done
    ensures Complete(g, st.emitted, {r}) && AboveDone(g, st.done, r) && Min({r}) == r
  {
  }

  lemma RoundContinues(g: Graph, done0: set<RelSet>, done: set<RelSet>, r: nat)
    requires r < g.n && done0 == ConnectedFrom(g, r + 1) && done <= done0 + {{r}}
    ensures {r} <= AllBelow(g.n) && Min({r}) == r
    ensures Region(g, {r}, BelowOrAt(r)) !! done
    ensures done == done0 + {{r}} ==> Earlier(g, done, {r}, BelowOrAt(r)) && AboveDone(g, done, r)
  {
  }

  lemma RoundEnds(g: Graph, r: nat)
    requires r < g.n
    ensures ConnectedFrom(g, r) == ConnectedFrom(g, r + 1) + ({{r}} * ConnectedSets(g) + Region(g, {r}, BelowOrAt(r)))
  {
  }

  // After the last round every pair has been emitted.
  lemma AllSettled(g: Graph, st: State)
    requires Settled(g, st, false) && st.done == ConnectedFrom(g, 0)
    ensures st.emitted == CsgCmpPairs(g)
  {
  }
}
