/**
  How the recursive enumerators divide up the connected sets.

  A call grows a set `s` away from an excluded set `x`; its region is every connected strict
  superset of `s` that takes nothing from `x`. The lemmas here say that the submasks of the
  neighborhood cut a region into parts: the sets `s` grows into at once, and one smaller region
  per submask, none overlapping. That every set of the region is in some part is the progress
  lemma of the hypergraph.
 */
module Regions {
  import opened RelSets
  import opened Hypergraph

  // The paper's N(S, X): the lowest relation of the far side of every edge that leaves `s` for
  // relations outside both `s` and `x`.
  ghost function Neighborhood(g: Graph, s: RelSet, x: RelSet): RelSet {
    EntryPoints(Directed(g.edges), s, x)
  }

  predicate Enters(d: DirectedEdge, s: RelSet, x: RelSet) {
    d.from <= s && d.to !! s + x && d.to != {}
  }

  // What the edges read so far lead to.
  ghost function EntryPoints(directed: seq<DirectedEdge>, s: RelSet, x: RelSet): RelSet {
    set d | d in directed && Enters(d, s, x) :: Min(d.to)
  }

  lemma EntersNext(directed: seq<DirectedEdge>, i: nat, s: RelSet, x: RelSet)
    requires i < |directed|
    ensures EntryPoints(directed[..i + 1], s, x) ==
            EntryPoints(directed[..i], s, x) + if Enters(directed[i], s, x) then {Min(directed[i].to)} else {}
  {
    hide Min;
    assert directed[..i + 1] == directed[..i] + [directed[i]];
  }

  lemma NeighborhoodOutside(g: Graph, s: RelSet, x: RelSet)
    requires WellFormed(g)
    ensures Neighborhood(g, s, x) !! s + x
    ensures Neighborhood(g, s, x) <= AllBelow(g.n)
  {
    forall v | v in Neighborhood(g, s, x)
      ensures v !in s + x && v in AllBelow(g.n)
    {
      var d :| d in Directed(g.edges) && Enters(d, s, x) && v == Min(d.to);
      DirectedReads(g, d);
      assert EdgeOk(g.n, g.edges[d.edge]);
      assert v in d.to;
    }
  }

  // `t` strictly grows `s` and takes nothing from `x`.
  predicate Beyond(t: RelSet, s: RelSet, x: RelSet) {
    s < t && t * x <= s
  }

  ghost function Region(g: Graph, s: RelSet, x: RelSet): set<RelSet> {
    set t | t in ConnectedSets(g) && Beyond(t, s, x)
  }

  // The connected sets among the first `i` growths of `s`.
  ghost function Grown(g: Graph, s: RelSet, subs: seq<RelSet>, i: nat): set<RelSet>
    requires i <= |subs|
  {
    set t | t in ConnectedSets(g) && exists j :: 0 <= j < i && t == s + subs[j]
  }

  // The regions of the first `i` growths of `s`.
  ghost function Deeper(g: Graph, s: RelSet, x: RelSet, subs: seq<RelSet>, i: nat): set<RelSet>
    requires i <= |subs|
  {
    set t | t in ConnectedSets(g) && exists j :: 0 <= j < i && Beyond(t, s + subs[j], x)
  }

  // `subs` lists the non-empty subsets of `of`, subsets before supersets.
  ghost predicate ListsSubmasks(subs: seq<RelSet>, of: RelSet) {
    && (forall s :: s in subs <==> s <= of && s != {})
    && (forall i, j :: 0 <= i < |subs| && 0 <= j < |subs| && subs[i] <= subs[j] ==> i <= j)
  }

  // Every set of a region takes some relation of the neighborhood.
  lemma Reaches(g: Graph, s: RelSet, x: RelSet, t: RelSet)
    requires WellFormed(g)
    requires s != {} && t in Region(g, s, x)
    ensures t * Neighborhood(g, s, x) != {}
  {
    assert !(t !! s) by { var y :| y in s; }
    var d := Progress(g, t, s);
    DirectedReads(g, d);
    assert EdgeOk(g.n, g.edges[d.edge]);
    assert d.to !! x by {
      forall y | y in d.to
        ensures y !in x
      {
        assert y in x ==> y in t * x;
      }
    }
    assert Enters(d, s, x);
    assert Min(d.to) in t * Neighborhood(g, s, x);
  }

  // Which part of a region a set falls in: the submask it takes of the neighborhood says.
  lemma PartOf(g: Graph, s: RelSet, x: RelSet, nb: RelSet, t: RelSet, sub: RelSet)
    requires nb !! s + x
    requires sub <= nb
    ensures Beyond(t, s + sub, x + nb) ==> t * nb == sub
    ensures t == s + sub ==> t * nb == sub
    ensures sub != {} && (t == s + sub || Beyond(t, s + sub, x + nb)) ==> Beyond(t, s, x)
    ensures Beyond(t, s, x) && t * nb == sub ==> t == s + sub || Beyond(t, s + sub, x + nb)
  {
    if Beyond(t, s + sub, x + nb) {
      forall y | y in t * nb
        ensures y in sub
      {
        assert y in t * (x + nb);
      }
      forall y | y in t * x
        ensures y in s
      {
        assert y in t * (x + nb);
      }
      if sub != {} {
        var z :| z in sub;
        assert z in t && z !in s;
      }
    }
    if t == s + sub && sub != {} {
      var z :| z in sub;
      assert z in t && z !in s;
    }
    if Beyond(t, s, x) && t * nb == sub {
      forall y | y in t * (x + nb)
        ensures y in s + sub
      {
        assert y in x ==> y in t * x;
        assert y in nb ==> y in t * nb;
      }
      assert s + sub <= t by {
        forall y | y in sub ensures y in t { assert y in t * nb; }
      }
    }
  }

  // The parts cover the region.
  lemma RegionCover(g: Graph, s: RelSet, x: RelSet, nb: RelSet, subs: seq<RelSet>)
    requires WellFormed(g)
    requires s != {} && nb == Neighborhood(g, s, x) && ListsSubmasks(subs, nb)
    ensures Region(g, s, x) == Grown(g, s, subs, |subs|) + Deeper(g, s, x + nb, subs, |subs|)
  {
    NeighborhoodOutside(g, s, x);
    forall t | t in ConnectedSets(g)
      ensures t in Region(g, s, x) <==>
              t in Grown(g, s, subs, |subs|) + Deeper(g, s, x + nb, subs, |subs|)
    {
      if t in Region(g, s, x) {
        Reaches(g, s, x, t);
        var sub := t * nb;
        PartOf(g, s, x, nb, t, sub);
        assert sub in subs;
        var j :| 0 <= j < |subs| && subs[j] == sub;
      } else {
        forall j | 0 <= j < |subs|
          ensures t != s + subs[j] && !Beyond(t, s + subs[j], x + nb)
        {
          assert subs[j] in subs;
          PartOf(g, s, x, nb, t, subs[j]);
        }
      }
    }
  }

  lemma NoGrowthYet(g: Graph, s: RelSet, x: RelSet, subs: seq<RelSet>)
    ensures Grown(g, s, subs, 0) == {} && Deeper(g, s, x, subs, 0) == {}
  {
  }

  lemma GrownWithin(g: Graph, s: RelSet, x: RelSet, nb: RelSet, subs: seq<RelSet>, i: nat)
    requires nb !! s + x && ListsSubmasks(subs, nb) && i <= |subs|
    ensures Grown(g, s, subs, i) <= Region(g, s, x)
  {
    forall t | t in Grown(g, s, subs, i)
      ensures t in Region(g, s, x)
    {
      var j :| 0 <= j < i && t == s + subs[j];
      assert subs[j] in subs;
      PartOf(g, s, x, nb, t, subs[j]);
    }
  }

  // A growth keeps clear of what the set and the neighborhood kept clear of, and is growth.
  lemma GrowthKeeps(s: RelSet, x: RelSet, nb: RelSet, subs: seq<RelSet>, i: nat, range: RelSet, shadow: RelSet)
    requires nb !! s + x && ListsSubmasks(subs, nb) && i < |subs|
    requires s != {} && s + nb <= range && s !! shadow && shadow <= x
    ensures var t := s + subs[i];
            && t != {} && t <= range && t !! shadow
            && range - (t + (x + nb)) < range - (s + x)
  {
    assert subs[i] in subs;
    var y :| y in subs[i];
    assert y in range - (s + x) && y !in range - (s + subs[i] + (x + nb));
  }

  // Growing away from everything up to the lowest relation keeps the lowest relation.
  lemma GrowthKeepsMin(s: RelSet, x: RelSet, nb: RelSet, subs: seq<RelSet>, i: nat)
    requires nb !! s + x && ListsSubmasks(subs, nb) && i < |subs|
    requires s != {} && BelowOrAt(Min(s)) <= x
    ensures var t := s + subs[i]; t != {} && Min(t) == Min(s)
  {
    assert subs[i] in subs;
    var t := s + subs[i];
    assert Min(s) in t;
    assert Min(t) in BelowOrAt(Min(s));
  }

  lemma RegionConnected(g: Graph, s: RelSet, x: RelSet)
    ensures Region(g, s, x) <= ConnectedSets(g)
  {
  }

  lemma SeedNotInRegion(g: Graph, s: RelSet, x: RelSet)
    ensures {s} !! Region(g, s, x)
  {
  }

  // One more growth.
  lemma GrownStep(g: Graph, s: RelSet, x: RelSet, nb: RelSet, subs: seq<RelSet>, i: nat)
    requires nb !! s + x && ListsSubmasks(subs, nb) && i < |subs|
    ensures var t := s + subs[i];
            && t !in Grown(g, s, subs, i)
            && Grown(g, s, subs, i + 1) == Grown(g, s, subs, i) + {t} * ConnectedSets(g)
            && {t} * ConnectedSets(g) <= Region(g, s, x)
  {
    var t := s + subs[i];
    assert subs[i] in subs;
    PartOf(g, s, x, nb, t, subs[i]);
    forall j | 0 <= j < i
      ensures t != s + subs[j]
    {
      assert subs[j] in subs;
      PartOf(g, s, x, nb, t, subs[j]);
    }
    assert forall u :: u in Grown(g, s, subs, i + 1) <==>
                       u in Grown(g, s, subs, i) || (u in ConnectedSets(g) && u == t);
  }

  // One more growth's region, apart from everything before it.
  lemma DeeperStep(g: Graph, s: RelSet, x: RelSet, nb: RelSet, subs: seq<RelSet>, i: nat)
    requires nb !! s + x && ListsSubmasks(subs, nb) && i < |subs|
    ensures var part := Region(g, s + subs[i], x + nb);
            && part !! Grown(g, s, subs, |subs|)
            && part !! Deeper(g, s, x + nb, subs, i)
            && part <= Region(g, s, x)
            && Deeper(g, s, x + nb, subs, i + 1) == Deeper(g, s, x + nb, subs, i) + part
  {
    var part := Region(g, s + subs[i], x + nb);
    assert subs[i] in subs;
    forall t | t in part
      ensures t !in Grown(g, s, subs, |subs|) && t !in Deeper(g, s, x + nb, subs, i) && t in Region(g, s, x)
    {
      PartOf(g, s, x, nb, t, subs[i]);
      forall j | 0 <= j < |subs|
        ensures t != s + subs[j]
        ensures j < i ==> !Beyond(t, s + subs[j], x + nb)
      {
        assert subs[j] in subs;
        PartOf(g, s, x, nb, t, subs[j]);
      }
    }
    assert forall u :: u in Deeper(g, s, x + nb, subs, i + 1) <==>
                       u in Deeper(g, s, x + nb, subs, i) || u in part;
  }
}
