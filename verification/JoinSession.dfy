/**
  The streaming join: built once, probed batch by batch, finished once. The session keeps the
  build side, which of its rows some batch matched, and the residual as it was split at the
  start; each probe call takes one of several arms. Whatever the arm, the batching and the chunk
  budget, the rows answered are those of the declarative join.
 */
module JoinSessions {
  import opened Basics
  import opened Tables
  import opened JoinResidual
  import opened JoinSpec
  import opened Cudf
  import opened JoinArms
  import opened JoinCounts

  // ------------------------------------------------------------ chunks

  const WORD64: nat := 0x1_0000_0000_0000_0000

  // Consecutive row ranges from 0 to `rows`.
  ghost predicate IsCover(ranges: seq<(nat, nat)>, rows: nat) {
    && ranges != []
    && ranges[0].0 == 0 && ranges[|ranges| - 1].1 == rows
    && (forall k :: 0 <= k < |ranges| ==> ranges[k].0 <= ranges[k].1 <= rows)
    && forall k :: 0 < k < |ranges| ==> ranges[k - 1].1 == ranges[k].0
  }

  lemma ScaledMonotone(rows: nat, i: nat, k: nat)
    requires i < k
    ensures rows * i / k <= rows * (i + 1) / k <= rows
    ensures rows * 0 / k == 0 && rows * k / k == rows
  {
    assert rows * i <= rows * (i + 1) <= rows * k;
    DivMonotone(rows * i, rows * (i + 1), k);
    DivMonotone(rows * (i + 1), rows * k, k);
    DivExact(rows, k);
  }

  lemma DivMonotone(a: nat, b: nat, k: nat)
    requires a <= b && k > 0
    ensures a / k <= b / k
  {
    var qa, qb := a / k, b / k;
    assert a == k * qa + a % k && b == k * qb + b % k;
    if qb + 1 <= qa {
      TimesGrows(k, qb + 1, qa);
    }
  }

  lemma TimesGrows(k: nat, a: nat, b: nat)
    requires a <= b
    ensures k * a <= k * b
  {
  }

  lemma DivExact(a: nat, k: nat)
    requires k > 0
    ensures a * k / k == a
  {
    var n := a * k;
    var q := n / k;
    assert q * k <= n < (q + 1) * k;
    assert q <= a < q + 1;
  }

  // Where the k-th range of a cover begins.
  ghost function Start(ranges: seq<(nat, nat)>, k: nat): nat
    requires k <= |ranges|
  {
    if k == 0 then 0 else ranges[k - 1].1
  }

  lemma CoverStarts(ranges: seq<(nat, nat)>, rows: nat)
    ensures Start(ranges, 0) == 0
  {
  }

  lemma CoverAt(ranges: seq<(nat, nat)>, rows: nat, k: nat)
    requires IsCover(ranges, rows) && k < |ranges|
    ensures Start(ranges, k) == ranges[k].0 <= ranges[k].1 <= rows
    ensures Start(ranges, k + 1) == ranges[k].1
  {
  }

  lemma CoverEnds(ranges: seq<(nat, nat)>, rows: nat)
    requires IsCover(ranges, rows)
    ensures Start(ranges, |ranges|) == rows
  {
  }

  // The fewest ranges of `budget` bytes each that hold `bytes`, at least one and no more than rows.
  predicate FewestFor(k: nat, bytes: nat, rows: nat, budget: nat) {
    var most := if rows > 1 then rows else 1;
    && 1 <= k <= most
    && (k == most || k * budget >= bytes)
    && (k == 1 || (k - 1) * budget < bytes)
  }

  lemma CeilingIs(bytes: nat, budget: nat)
    requires budget > 0
    ensures var q := (bytes + budget - 1) / budget;
            q * budget >= bytes && (q == 0 || (q - 1) * budget < bytes)
  {
    var n := bytes + budget - 1;
    var q := n / budget;
    assert n == budget * q + n % budget;
    assert q * budget == budget * q && (q - 1) * budget == budget * q - budget;
  }

  lemma Unwrapped(bytes: nat, budget: nat)
    requires budget > 0 && bytes + budget - 1 < WORD64
    ensures bytes % WORD64 == bytes && (bytes + budget - 1) % WORD64 == bytes + budget - 1
  {
  }

  // How many ranges: the ceiling of the division, at least one and no more than rows.
  function Clamped(wanted: nat, rows: nat): (k: nat)
    ensures k >= 1
  {
    var k := if wanted > 1 then wanted else 1;
    var most := if rows > 1 then rows else 1;
    if k > most then most else k
  }

  lemma ClampedIsFewest(bytes: nat, rows: nat, budget: nat)
    requires budget > 0
    ensures FewestFor(Clamped((bytes + budget - 1) / budget, rows), bytes, rows, budget)
  {
    CeilingIs(bytes, budget);
    var q := (bytes + budget - 1) / budget;
    var k := Clamped(q, rows);
    if 1 < k < q {
      TimesGrows(budget, k - 1, q - 1);
    }
  }

  /** Row ranges of a probe batch so that a range's pairs fit the budget on average: the fewest
      such ranges, but no more than there are rows. The byte count is 64-bit arithmetic; whatever
      it comes to, the ranges cover the batch once. */
  method Chunks(pairs: nat, rowBytes: nat, rows: nat, budget: nat) returns (ranges: seq<(nat, nat)>)
    requires budget > 0
    ensures IsCover(ranges, rows)
    ensures pairs * (8 + rowBytes) + budget - 1 < WORD64 ==> FewestFor(|ranges|, pairs * (8 + rowBytes), rows, budget)
  {
    var bytes := pairs * (8 + rowBytes) % WORD64;
    var wanted := (bytes + budget - 1) % WORD64 / budget;
    var k := Clamped(wanted, rows);
    hide FewestFor, Clamped;
    if pairs * (8 + rowBytes) + budget - 1 < WORD64 {
      Unwrapped(pairs * (8 + rowBytes), budget);
      ClampedIsFewest(pairs * (8 + rowBytes), rows, budget);
    }
    ranges := [];
    ScaledMonotone(rows, 0, k);
    for i := 0 to k
      invariant |ranges| == i
      invariant i > 0 ==> ranges[0].0 == 0 && ranges[i - 1].1 == rows * i / k
      invariant forall h :: 0 <= h < i ==> ranges[h].0 <= ranges[h].1 <= rows
      invariant forall h :: 0 < h < i ==> ranges[h - 1].1 == ranges[h].0
    {
      ScaledMonotone(rows, i, k);
      ranges := ranges + [(rows * i / k, rows * (i + 1) / k)];
    }
  }

  // ------------------------------------------------------------ the session

  datatype Refusal =
    | ZeroChunkBudget | KeyColumnPastSide | EmptyProjection | FilterColumnOutOfRange | PredicateFreeOuter
    | FilterColumnPastSide

  // What a constructor refuses, in the order it looks.
  function Refuses(d: Desc): Option<Refusal> {
    if d.chunkBytes == 0 then Some(ZeroChunkBudget)
    else if exists k :: k in d.keys && k.0 >= d.buildWidth then Some(KeyColumnPastSide)
    else if d.projection == Some([]) then Some(EmptyProjection)
    else if exists c :: c in ConjunctsOf(d) && !InRange(c, d.columns) then Some(FilterColumnOutOfRange)
    else if d.keys == [] && d.filter.None? && d.joinType != Inner then Some(PredicateFreeOuter)
    else None
  }

  // Every column the filter's map names exists on its side.
  predicate MapOk(d: Desc) {
    MapFits(d.columns, d.buildWidth, d.probeWidth)
  }

  // Whether taking a build side of these rows looks columns up through the map: to filter the
  // build early, or to split the cross conjuncts.
  predicate LooksUpAtBuild(d: Desc, rows: Table) {
    || (IsProbeSideSemi(d.joinType) && exists c :: c in ConjunctsOf(d) && OneSided(d, c, Build))
    || (rows != [] && !(d.keys != [] && EmitsPairs(d.joinType)) && exists c :: c in ConjunctsOf(d) && Crossing(d, c))
  }

  // Every probe key names a column of the batches.
  predicate ProbeKeysOk(d: Desc) {
    forall k :: k in d.keys ==> k.1 < d.probeWidth
  }

  // A build side of these rows matches nothing: it has none, or a semi join is on keys alone and
  // every one of them is NULL where that matches nothing.
  predicate Hopeless(d: Desc, rows: Table) {
    || rows == []
    || (IsProbeSideSemi(d.joinType) && d.keys != [] && !d.nullEqualsNull &&
        (forall c :: c in ConjunctsOf(d) ==> !Crossing(d, c)) && forall b :: b in rows ==> Null in BuildKey(d, b))
  }

  // A probe meets a column that does not exist: a key of its own, one a conjunct needs while a match
  // is possible, or one the answer should have.
  predicate BreaksProbe(d: Desc, rows: Table) {
    || !ProbeKeysOk(d)
    || (!MapOk(d) && !Hopeless(d, rows) && exists c :: c in ConjunctsOf(d) && !OneSided(d, c, Build))
    || (!IsBuildSideSemi(d.joinType) && !ProjectionOk(d))
  }

  // So does a finish.
  predicate BreaksFinish(d: Desc) {
    || (!MapOk(d) && IsBuildSideSemi(d.joinType) && exists c :: c in ConjunctsOf(d) && OneSided(d, c, Build))
    || (Tracks(d.joinType) && !ProjectionOk(d))
  }

  datatype Answer = Refused | Threw | Silent | Rows(table: Table)

  predicate Tracks(t: JoinType) {
    t == Left || t == Full || IsBuildSideSemi(t)
  }

  // The probe rows that can witness a match for a build-side semi join.
  function Screened(d: Desc, probeOnly: seq<Expr>, P: Table): Table {
    if IsBuildSideSemi(d.joinType) then Where(ProbeTest(d, probeOnly), P) else P
  }

  ghost predicate NoBuildRowMatches(m: Relation, B: Table) {
    forall p: Row :: !Hit(m, B, p)
  }

  /** Sorts the conjuncts into three lists that hold them all: one-sided ones of each side where the
      join tests those apart, and the rest. */
  method SplitResidual(d: Desc) returns (cross: seq<Expr>, buildOnly: seq<Expr>, probeOnly: seq<Expr>)
    requires forall c :: c in ConjunctsOf(d) ==> InRange(c, d.columns)
    ensures ResidualSplit(d, cross, buildOnly, probeOnly)
  {
    cross, buildOnly, probeOnly := [], [], [];
    var parts := ConjunctsOf(d);
    for i := 0 to |parts|
      invariant forall c :: c in parts[..i] <==> c in cross || c in buildOnly || c in probeOnly
      invariant forall c :: c in cross ==> InRange(c, d.columns) && Crossing(d, c)
      invariant forall c :: c in buildOnly ==> OneSided(d, c, Build)
      invariant forall c :: c in probeOnly ==> OneSided(d, c, Probe)
      invariant AllReadOnly(buildOnly, d.columns, Build) && AllReadOnly(probeOnly, d.columns, Probe)
      invariant !PushesDown(d) ==> buildOnly == [] && probeOnly == [] && |cross| == i
      invariant |cross| <= i
    {
      var e := parts[i];
      assert e in parts && parts[..i + 1] == parts[..i] + [e];
      var readsBuild, readsProbe := Reads(e, d.columns, Build), Reads(e, d.columns, Probe);
      if !PushesDown(d) {
        cross := cross + [e];
      } else if readsBuild && !readsProbe {
        buildOnly := buildOnly + [e];
      } else if readsProbe && !readsBuild {
        probeOnly := probeOnly + [e];
      } else {
        cross := cross + [e];
      }
    }
    assert parts[..|parts|] == parts;
  }

  lemma ConjunctsInRange(d: Desc)
    requires Refuses(d).None?
    ensures forall c :: c in ConjunctsOf(d) ==> InRange(c, d.columns)
  {
  }

  /** The build side, filtered by its own conjuncts where a probe-side semi join allows it. */
  method BuildSide(d: Desc, buildOnly: seq<Expr>, rows: Table) returns (kept: Table)
    ensures kept == if IsProbeSideSemi(d.joinType) then Where(BuildTest(d, buildOnly), rows) else rows
    ensures forall r :: r in kept ==> r in rows
  {
    kept := rows;
    if IsProbeSideSemi(d.joinType) {
      if buildOnly != [] {
        var keep := EvalOn(d, buildOnly, Build, rows);
        MaskedIsWhere(BuildTest(d, buildOnly), rows, keep);
        kept := Masked(rows, keep);
      } else {
        WhereAll(BuildTest(d, buildOnly), rows);
      }
      forall r | r in kept
        ensures r in rows
      {
        WhereHolds(BuildTest(d, buildOnly), rows, r);
      }
    }
  }

  lemma SubsetShaped(rows: Table, kept: Table, width: nat)
    requires rows == [] || Shaped(rows, width)
    requires forall r :: r in kept ==> r in rows
    ensures Shaped(kept, width)
  {
  }

  function Both(a: seq<bool>, b: seq<bool>): (r: seq<bool>)
    requires |a| == |b|
    ensures |r| == |a| && forall i :: 0 <= i < |a| ==> r[i] == (a[i] && b[i])
  {
    seq(|a|, i requires 0 <= i < |a| => a[i] && b[i])
  }

  lemma NoMatches(m: Relation, B: Table, P: Table)
    requires NoBuildRowMatches(m, B)
    ensures Pairs(m, B, P) == [] && Where(MissedBy(m, B), P) == P
  {
    NoPairs(m, B, P);
    WhereAll(MissedBy(m, B), P);
  }

  // Without keys and conjuncts every pair matches.
  lemma CrossAgrees(d: Desc, B: Table, P: Table)
    requires d.keys == []
    ensures Agree(Always(), CoreOf(d, []), B, P)
  {
    forall b, p
      ensures Always()(b, p) == CoreOf(d, [])(b, p)
    {
      assert KeysMatch(d, b, p);
    }
    AgreeOnTables(Always(), CoreOf(d, []), B, P);
  }

  class JoinSession {
    const d: Desc
    var B: Table
    var cross: seq<Expr>
    var buildOnly: seq<Expr>
    var probeOnly: seq<Expr>
    var split: Split
    var crossIsAst: bool
    var Bcond: Table                // the build's condition table
    var hj: Option<Table>           // the hash table's keys
    var Bd: Table                   // the distinct keys
    var emptyBuild: bool
    var finished: bool
    var matched: seq<bool>

    ghost const B0: Table           // the build side as it arrived
    ghost var taken: seq<Expr>
    ghost var probed: Table         // every probe row so far

    ghost function CoreRel(): Relation
      reads `cross
    {
      CoreOf(d, cross)
    }

    ghost predicate SplitReady()
      reads `B, `cross, `split, `crossIsAst, `Bcond, `taken
    {
      && MapOk(d) && SplitOk(split, taken, cross, d.columns)
      && crossIsAst == (split.rest == [] && !EmitsPairs(d.joinType) && d.keys != [])
      && (split.asts != [] && (d.keys == [] || crossIsAst) ==> Bcond == CondTable(d, Build, split.hoistBuild, B))
    }

    // What the constructor leaves ready, by the arm the probes will take.
    ghost predicate Prepared()
      reads `B, `cross, `split, `crossIsAst, `Bcond, `taken, `hj, `Bd
    {
      && (cross != [] && !(d.keys != [] && EmitsPairs(d.joinType)) ==> SplitReady())
      && (d.keys != [] && EmitsPairs(d.joinType) ==> hj == Some(BuildKeys(d, B)) && !crossIsAst)
      && (d.keys != [] && cross == [] && IsBuildSideSemi(d.joinType) ==> hj == Some(BuildKeys(d, B)))
      && (d.keys != [] && cross == [] && IsProbeSideSemi(d.joinType) ==>
            AreDistinctKeys(Bd, d.nullEqualsNull, BuildKeys(d, B)))
      && (d.keys != [] && cross != [] && !crossIsAst ==> hj == Some(BuildKeys(d, B)))
    }

    // What no call changes.
    ghost predicate Built()
      reads `B, `cross, `buildOnly, `probeOnly, `split, `crossIsAst, `Bcond, `taken, `hj, `Bd, `emptyBuild
    {
      && Received()
      && (emptyBuild ==> NoBuildRowMatches(CoreRel(), B))
      && (!emptyBuild ==> Prepared())
      && (emptyBuild <==> B == [] || KeysHopeless())
    }

    // A semi join on keys alone, none of which can match.
    ghost predicate KeysHopeless()
      reads `B, `cross
    {
      && IsProbeSideSemi(d.joinType) && d.keys != [] && cross == []
      && AreDistinctKeys([], d.nullEqualsNull, BuildKeys(d, B))
    }

    // What holds before the arms are prepared.
    ghost predicate Received()
      reads `B, `cross, `buildOnly, `probeOnly
    {
      && Refuses(d).None?
      && Shaped(B, d.buildWidth)
      && ResidualSplit(d, cross, buildOnly, probeOnly)
      && B == (if IsProbeSideSemi(d.joinType) then Where(BuildTest(d, buildOnly), B0) else B0)
      && (IsProbeSideSemi(d.joinType) && buildOnly != [] ==> MapOk(d))
    }

    /** A session over a build side, absent meaning without rows, and nothing probed. For a
        probe-side semi join `B` is already cut to the rows its own conjuncts accept. */
    constructor (desc: Desc, build: Option<Table>)
      requires Refuses(desc).None?
      requires build.Some? ==> Shaped(build.value, desc.buildWidth)
      requires MapOk(desc) || !LooksUpAtBuild(desc, if build.Some? then build.value else [])
      ensures d == desc && B0 == (if build.Some? then build.value else [])
      ensures Valid() && probed == [] && !finished
    {
      hide ResidualSplit, Shaped, MapOk, LooksUpAtBuild, TrueOn, Conjuncts, InRange, Where, BuildTest, Prepared,
           NoBuildRowMatches, CoreOf, Screened, BitsAre, Refuses, KeysHopeless, BuildKeys;
      d := desc;
      var rows := if build.Some? then build.value else [];
      ConjunctsInRange(desc);
      var c, bo, po := SplitResidual(desc);
      var kept := BuildSide(desc, bo, rows);
      B0, B := rows, kept;
      cross, buildOnly, probeOnly := c, bo, po;
      matched := if Tracks(desc.joinType) then Bools(|kept|, false) else [];
      split, crossIsAst, Bcond, hj, Bd := Split([], [], [], []), false, [], None, [];
      emptyBuild, finished := false, false;
      taken, probed := [], [];
      new;
      SubsetShaped(rows, kept, desc.buildWidth);
      SplitNeedsMap(rows);
      StartBits();
      Prepare();
    }

    lemma StartBits()
      requires |matched| == (if Tracks(d.joinType) then |B| else 0)
      requires forall j :: 0 <= j < |matched| ==> !matched[j]
      ensures BitsOf(Screened(d, probeOnly, []))
    {
    }

    // A split of the cross conjuncts is only reached with a sound map.
    lemma SplitNeedsMap(rows: Table)
      requires ResidualSplit(d, cross, buildOnly, probeOnly)
      requires MapOk(d) || !LooksUpAtBuild(d, rows)
      requires forall r :: r in B ==> r in rows
      ensures B != [] && cross != [] && !(d.keys != [] && EmitsPairs(d.joinType)) ==> MapOk(d)
      ensures IsProbeSideSemi(d.joinType) && buildOnly != [] ==> MapOk(d)
    {
      if B != [] && cross != [] {
        assert B[0] in B && cross[0] in cross && cross[0] in ConjunctsOf(d);
      }
      if buildOnly != [] {
        assert buildOnly[0] in buildOnly && buildOnly[0] in ConjunctsOf(d);
      }
    }

    lemma LiveKey(D: Table)
      requires AreDistinctKeys(D, d.nullEqualsNull, BuildKeys(d, B)) && D != []
      ensures !AreDistinctKeys([], d.nullEqualsNull, BuildKeys(d, B))
    {
      assert D[0] in D;
    }

    lemma HopelessKeys()
      requires AreDistinctKeys([], d.nullEqualsNull, BuildKeys(d, B))
      ensures NoBuildRowMatches(CoreRel(), B)
    {
    }

    lemma CrossInRange()
      requires Received()
      ensures forall c :: c in cross ==> InRange(c, d.columns)
    {
    }

    /** Makes ready what the probes of this type will need. */
    method Prepare()
      requires Received() && split == Split([], [], [], []) && !crossIsAst && !emptyBuild && taken == []
      requires B != [] && cross != [] && !(d.keys != [] && EmitsPairs(d.joinType)) ==> MapOk(d)
      modifies `split, `crossIsAst, `Bcond, `hj, `Bd, `emptyBuild, `taken
      ensures Built()
    {
      hide ResidualSplit, Shaped, MapOk, Refuses, BuildTest, SplitOk, AreDistinctKeys, CondTable, BuildKeys, InRange;
      if |B| == 0 {
        emptyBuild := true;
        return;
      }
      var pairsOnly := d.keys != [] && EmitsPairs(d.joinType);
      if cross != [] && !pairsOnly {
        CrossInRange();
        ghost var t;
        split, t := SplitCross(cross, d.columns, d.astAble, d.comparable);
        taken := t;
        crossIsAst := split.rest == [] && !EmitsPairs(d.joinType) && d.keys != [];
        var usesAst := split.asts != [] && (d.keys == [] || crossIsAst);
        if usesAst {
          Bcond := CondTable(d, Build, split.hoistBuild, B);
        }
        if crossIsAst {
          return;
        }
      }
      if d.keys == [] {
        return;
      }
      if IsProbeSideSemi(d.joinType) && cross == [] {
        Bd := DistinctKeys(d.nullEqualsNull, BuildKeys(d, B));
        if |Bd| == 0 {
          assert Bd == [];
          HopelessKeys();
          emptyBuild := true;
        } else {
          LiveKey(Bd);
        }
        return;
      }
      hj := Some(BuildKeys(d, B));
    }

    // The match bits are those of the probe rows `seen`.
    ghost predicate BitsOf(seen: Table)
      reads `B, `cross, `matched
    {
      Tracks(d.joinType) ==> BitsAre(matched, CoreRel(), B, seen)
    }

    ghost predicate Valid()
      reads this
    {
      Built() && BitsOf(Screened(d, probeOnly, probed))
    }

    // `out` is the arm's answer to the (screened) probe rows `P`.
    ghost predicate AnswersArm(out: Table, P: Table)
      reads `B, `cross, `probeOnly
    {
      !IsBuildSideSemi(d.joinType) ==>
        multiset(out) == multiset(ArmRows(d, CoreRel(), probeOnly, B, P))
    }

    /** From which rows have a core match to which rows the join type keeps. */
    method KeptProbeRows(P: Table, hit: seq<bool>) returns (kept: Table)
      requires |hit| == |P| && forall i :: 0 <= i < |P| ==> hit[i] == Hit(CoreRel(), B, P[i])
      ensures kept == Where(KeptBy(d, CoreRel(), probeOnly, B), P)
    {
      var mask := hit;
      if probeOnly != [] {
        mask := Both(hit, EvalOn(d, probeOnly, Side.Probe, P));
      }
      assert forall i :: 0 <= i < |P| ==> mask[i] == (hit[i] && ProbeTest(d, probeOnly)(P[i]));
      if d.joinType != RightSemi {
        mask := Negated(mask);
      }
      KeptRows(d, CoreRel(), probeOnly, B, P, hit, mask);
      kept := Masked(P, mask);
    }

    /** From the matching pairs of some probe rows to their answer, with the match bits brought up to
        date. */
    method Derive(Pc: Table, pl: seq<(nat, nat)>, ghost seen: Table) returns (part: Table)
      requires IsPairList(pl, CoreRel(), B, Pc) && BitsOf(seen)
      modifies `matched
      ensures BitsOf(seen + Pc) && AnswersArm(part, Pc)
    {
      ghost var m := CoreRel();
      PairListBits(pl, m, B, Pc);
      if Tracks(d.joinType) {
        BitsThen(matched, BuildIndices(pl), m, B, seen, Pc);
        matched := SetTrue(matched, BuildIndices(pl));
      }
      if IsBuildSideSemi(d.joinType) {
        return [];
      }
      var hit := SetTrue(Bools(|Pc|, false), ProbeIndices(pl));
      if IsProbeSideSemi(d.joinType) {
        part := KeptProbeRows(Pc, hit);
        part := Map(Project(d), part);
        return;
      }
      PairListRows(pl, m, B, Pc);
      var rows := Map(Gathered(B, Pc), pl);
      if d.joinType == Right || d.joinType == Full {
        PairsPlusPads(d, m, B, Pc, pl, hit);
        rows := rows + Map(PadBuild(d), Masked(Pc, Negated(hit)));
      }
      MapPermutes(Project(d), rows, ArmPart(d, m, probeOnly, B, Pc));
      part := Map(Project(d), rows);
    }

    // A candidate pair on which every conjunct of `cs` is true is a core pair, and conversely.
    ghost predicate Completes(cand: Relation, cs: seq<Expr>)
      reads `cross
    {
      forall b, p :: CoreRel()(b, p) <==> cand(b, p) && AllTrue(d.meaning, cs, PairRow(d.columns, b, p))
    }

    /** The same from pairs that match but for the conjuncts `cs`. */
    method KeepAndDerive(Pc: Table, pl: seq<(nat, nat)>, cs: seq<Expr>, ghost cand: Relation, ghost seen: Table)
      returns (part: Table)
      requires IsPairList(pl, cand, B, Pc) && BitsOf(seen)
      requires Completes(cand, cs)
      modifies `matched
      ensures BitsOf(seen + Pc) && AnswersArm(part, Pc)
    {
      var table := B;
      var keep := (at: (nat, nat)) =>
        at.0 < |table| && at.1 < |Pc| && AllTrue(d.meaning, cs, PairRow(d.columns, table[at.0], Pc[at.1]));
      var kept := Where(keep, pl);
      PairListFilters(pl, kept, keep, cand, CoreRel(), B, Pc);
      part := Derive(Pc, kept, seen);
    }

    // The rows before `upTo` have been answered by `out` and set their bits.
    ghost predicate Progress(P: Table, upTo: nat, out: Table, seen: Table)
      requires upTo <= |P|
      reads `B, `cross, `probeOnly, `matched
    {
      BitsOf(seen + P[..upTo]) && AnswersArm(out, P[..upTo])
    }

    lemma ProgressStarts(P: Table, seen: Table)
      requires BitsOf(seen)
      ensures Progress(P, 0, [], seen)
    {
      assert seen + P[..0] == seen && P[..0] == [];
      ArmRowsNone(d, CoreRel(), probeOnly, B);
    }

    lemma ProgressThen(P: Table, lo: nat, hi: nat, out: Table, part: Table, seen: Table)
      requires lo <= hi <= |P|
      requires AnswersArm(out, P[..lo]) && AnswersArm(part, P[lo..hi]) && BitsOf(seen + P[..lo] + P[lo..hi])
      ensures Progress(P, hi, out + part, seen)
    {
      assert P[..lo] + P[lo..hi] == P[..hi];
      assert seen + P[..lo] + P[lo..hi] == seen + P[..hi];
      if !IsBuildSideSemi(d.joinType) {
        ArmRowsThen(d, CoreRel(), probeOnly, B, P[..lo], P[lo..hi], out, part);
      }
    }

    lemma ProgressEnds(P: Table, out: Table, seen: Table)
      requires Progress(P, |P|, out, seen)
      ensures BitsOf(seen + P) && AnswersArm(out, P)
    {
      assert P[..|P|] == P;
    }

    lemma KeysComplete()
      ensures Completes(KeysOf(d), cross)
    {
    }

    lemma Budgeted()
      requires Built()
      ensures d.chunkBytes > 0
    {
    }

    /** With keys and cross conjuncts: range by range, the pairs equal in their keys are candidates. */
    method ProbePairs(P: Table, ghost seen: Table) returns (out: Table)
      requires Built() && !emptyBuild && BitsOf(seen)
      requires d.keys != [] && hj == Some(BuildKeys(d, B))
      modifies `matched
      ensures BitsOf(seen + P) && AnswersArm(out, P)
    {
      hide *;
      Budgeted();
      KeysComplete();
      var whole := HashInnerJoin(d.nullEqualsNull, hj.value, ProbeKeys(d, P));
      var ranges := Chunks(|whole|, d.rowBytes, |P|, d.chunkBytes);
      out := [];
      ProgressStarts(P, seen);
      ghost var done := 0;
      CoverStarts(ranges, |P|);
      for k := 0 to |ranges|
        invariant done <= |P| && done == Start(ranges, k)
        invariant Progress(P, done, out, seen)
      {
        CoverAt(ranges, |P|, k);
        var lo, hi := ranges[k].0, ranges[k].1;
        var Pc := P[lo..hi];
        var pl := HashInnerJoin(d.nullEqualsNull, hj.value, ProbeKeys(d, Pc));
        KeyPairs(d, B, Pc, pl);
        ProgressIs(P, lo, out, seen);
        var part := KeepAndDerive(Pc, pl, cross, KeysOf(d), seen + P[..lo]);
        ProgressThen(P, lo, hi, out, part, seen);
        out, done := out + part, hi;
      }
      CoverEnds(ranges, |P|);
      ProgressEnds(P, out, seen);
    }

    lemma ProgressIs(P: Table, upTo: nat, out: Table, seen: Table)
      requires upTo <= |P| && Progress(P, upTo, out, seen)
      ensures BitsOf(seen + P[..upTo]) && AnswersArm(out, P[..upTo])
    {
    }

    // ---------------------------------------------------------- nested loops

    lemma NestedComplete()
      requires SplitReady() && d.keys == []
      ensures Completes(TakenOf(d, taken), split.rest)
      ensures split.asts == [] ==> Completes(Always(), split.rest)
    {
    }

    lemma AstReady(P: Table)
      requires Built() && SplitReady() && split.asts != [] && Shaped(P, d.probeWidth)
      ensures AstUsable(d, split, taken, cross, B, P)
    {
      AstIsUsable(d, split, taken, cross, B, P);
    }

    lemma SliceShaped(P: Table, lo: nat, hi: nat)
      requires lo <= hi <= |P| && Shaped(P, d.probeWidth)
      ensures Shaped(P[lo..hi], d.probeWidth)
    {
    }

    lemma ProductIsPairList(pl: seq<(nat, nat)>, P: Table)
      requires NoDup(pl) && forall j: nat, i: nat :: (j, i) in pl <==> j < |B| && i < |P|
      ensures IsPairList(pl, Always(), B, P)
    {
    }

    /** Without keys: range by range, the pairs the AST accepts are candidates for the rest. */
    method ProbeNestedCandidates(P: Table, ghost seen: Table) returns (out: Table)
      requires Built() && BitsOf(seen) && Shaped(P, d.probeWidth)
      requires d.keys == [] && SplitReady() && split.asts != [] && Bcond == CondTable(d, Build, split.hoistBuild, B)
      modifies `matched
      ensures BitsOf(seen + P) && AnswersArm(out, P)
    {
      hide *;
      Budgeted();
      NestedComplete();
      AstReady(P);
      UsableAst(d, split, taken, cross, B, P);
      var ast := AstOf(d, split, false);
      var whole := ConditionalInnerJoin(d.meaning, ast, Bcond, CondTable(d, Side.Probe, split.hoistProbe, P));
      var ranges := Chunks(|whole|, d.rowBytes, |P|, d.chunkBytes);
      out := [];
      ProgressStarts(P, seen);
      ghost var done := 0;
      CoverStarts(ranges, |P|);
      for k := 0 to |ranges|
        invariant done <= |P| && done == Start(ranges, k)
        invariant Progress(P, done, out, seen)
      {
        CoverAt(ranges, |P|, k);
        var lo, hi := ranges[k].0, ranges[k].1;
        var Pc := P[lo..hi];
        SliceShaped(P, lo, hi);
        AstReady(Pc);
        var pl := ConditionalInnerJoin(d.meaning, ast, Bcond, CondTable(d, Side.Probe, split.hoistProbe, Pc));
        AstPairs(d, split, taken, cross, B, Pc, pl);
        ProgressIs(P, lo, out, seen);
        var part := KeepAndDerive(Pc, pl, split.rest, TakenOf(d, taken), seen + P[..lo]);
        ProgressThen(P, lo, hi, out, part, seen);
        out, done := out + part, hi;
      }
      CoverEnds(ranges, |P|);
      ProgressEnds(P, out, seen);
    }

    /** Without keys and without an AST: range by range, every pair is a candidate. */
    method ProbeNestedCross(P: Table, ghost seen: Table) returns (out: Table)
      requires Built() && BitsOf(seen)
      requires d.keys == [] && SplitReady() && split.asts == []
      modifies `matched
      ensures BitsOf(seen + P) && AnswersArm(out, P)
    {
      hide *;
      Budgeted();
      NestedComplete();
      var ranges := Chunks(|B| * |P|, d.rowBytes, |P|, d.chunkBytes);
      out := [];
      ProgressStarts(P, seen);
      ghost var done := 0;
      CoverStarts(ranges, |P|);
      for k := 0 to |ranges|
        invariant done <= |P| && done == Start(ranges, k)
        invariant Progress(P, done, out, seen)
      {
        CoverAt(ranges, |P|, k);
        var lo, hi := ranges[k].0, ranges[k].1;
        var Pc := P[lo..hi];
        var pl := IndexProduct(|B|, |Pc|);
        ProductIsPairList(pl, Pc);
        ProgressIs(P, lo, out, seen);
        var part := KeepAndDerive(Pc, pl, split.rest, Always(), seen + P[..lo]);
        ProgressThen(P, lo, hi, out, part, seen);
        out, done := out + part, hi;
      }
      CoverEnds(ranges, |P|);
      ProgressEnds(P, out, seen);
    }

    // With nothing left over, the taken conjuncts are the core.
    lemma TakenAgrees(P: Table)
      requires SplitReady() && d.keys == [] && split.rest == []
      ensures Agree(TakenOf(d, taken), CoreRel(), B, P)
      ensures forall j :: 0 <= j < |B| ==> Met(TakenOf(d, taken), P, B[j]) == Met(CoreRel(), P, B[j])
      ensures forall i :: 0 <= i < |P| ==> Hit(TakenOf(d, taken), B, P[i]) == Hit(CoreRel(), B, P[i])
    {
    }

    /** Build rows matched by this batch, for a type that answers only at finish. */
    method Note(idx: seq<nat>, ghost P: Table, ghost seen: Table)
      requires IsBuildSideSemi(d.joinType) && BitsOf(seen)
      requires forall j :: 0 <= j < |B| ==> (j in idx <==> Met(CoreRel(), P, B[j]))
      modifies `matched
      ensures BitsOf(seen + P)
    {
      BitsThen(matched, idx, CoreRel(), B, seen, P);
      matched := SetTrue(matched, idx);
    }

    /** The probe rows `idx` names as hit, for a type that answers them. */
    method EmitKept(P: Table, idx: seq<nat>) returns (out: Table)
      requires IsProbeSideSemi(d.joinType)
      requires forall i :: 0 <= i < |P| ==> (i in idx <==> Hit(CoreRel(), B, P[i]))
      ensures AnswersArm(out, P)
    {
      var hit := SetTrue(Bools(|P|, false), idx);
      out := KeptProbeRows(P, hit);
      out := Map(Project(d), out);
    }

    /** A left join's entries, unmatched rows padded; in-range build indices set their bit. */
    method EmitLeftJoin(P: Table, es: seq<(nat, int)>, ghost seen: Table) returns (out: Table)
      requires d.joinType == Right || d.joinType == Full
      requires IsLeftJoinList(es, CoreRel(), B, P) && BitsOf(seen)
      modifies `matched
      ensures BitsOf(seen + P) && AnswersArm(out, P)
    {
      hide HitsOf, IsPairList, NoDup, EntryRow, Where, Pairs, MissedBy, PadBuild, BitsAre, SetTrue, BuildIndices,
           CoreOf, Project, Map, KeptBy, Met;
      if Tracks(d.joinType) {
        var hits := BuildIndices(HitsOf(es, |B|));
        PairListBits(HitsOf(es, |B|), CoreRel(), B, P);
        BitsThen(matched, hits, CoreRel(), B, seen, P);
        matched := SetTrue(matched, hits);
      }
      LeftJoinRows(d, es, CoreRel(), B, P);
      var rows := Map(EntryRow(d, B, P), es);
      MapPermutes(Project(d), rows, ArmPart(d, CoreRel(), probeOnly, B, P));
      out := Map(Project(d), rows);
    }

    lemma NothingTracked(P: Table, seen: Table)
      requires !Tracks(d.joinType)
      ensures BitsOf(seen + P)
    {
    }

    lemma SilentArm(P: Table)
      requires IsBuildSideSemi(d.joinType)
      ensures AnswersArm([], P)
    {
    }

    lemma IndexListIs(ix: seq<nat>, keep: Row -> bool, T: Table, i: nat)
      requires IsIndexList(ix, keep, T) && i < |T|
      ensures i in ix <==> keep(T[i])
    {
    }

    /** The AST takes everything: row-wise where the type allows. */
    method ProbeNestedRowwise(P: Table, ghost seen: Table) returns (out: Table)
      requires Built() && BitsOf(seen) && Shaped(P, d.probeWidth)
      requires d.keys == [] && SplitReady() && split.asts != [] && split.rest == []
      requires Bcond == CondTable(d, Build, split.hoistBuild, B) && d.joinType != Full
      modifies `matched
      ensures BitsOf(seen + P) && AnswersArm(out, P)
    {
      hide Built, SplitReady, Shaped, AstUsable, AstOf, CondTable, BitsOf, AnswersArm, IsPairList, IsLeftJoinList,
           Agree, TakenOf, CoreRel, CoreOf, AstRelation, SwappedAstRelation, Met, Hit;
      out := [];
      AstReady(P);
      UsableAst(d, split, taken, cross, B, P);
      TakenAgrees(P);
      AstRowwise(d, split, taken, cross, B, P);
      var Pcond := CondTable(d, Side.Probe, split.hoistProbe, P);
      match d.joinType {
        case Inner | Left =>
          var pl := ConditionalInnerJoin(d.meaning, AstOf(d, split, false), Bcond, Pcond);
          AstPairs(d, split, taken, cross, B, P, pl);
          PairListAgrees(pl, TakenOf(d, taken), CoreRel(), B, P);
          out := Derive(P, pl, seen);
        case Right =>
          var es := ConditionalLeftJoin(d.meaning, AstOf(d, split, true), Pcond, Bcond);
          AstLeftJoin(d, split, taken, cross, B, P, es);
          LeftJoinListAgrees(es, TakenOf(d, taken), CoreRel(), B, P);
          out := EmitLeftJoin(P, es, seen);
        case LeftSemi | LeftAnti | LeftMark =>
          var bi := ConditionalLeftSemiJoin(d.meaning, AstOf(d, split, false), Bcond, Pcond);
          forall j | 0 <= j < |B|
            ensures j in bi <==> Met(CoreRel(), P, B[j])
          {
            IndexListIs(bi, MetBy(AstRelation(d.meaning, AstOf(d, split, false)), Pcond), Bcond, j);
          }
          Note(bi, P, seen);
          SilentArm(P);
        case Full =>
          assert false;
        case RightSemi | RightAnti =>
          var pi := ConditionalLeftSemiJoin(d.meaning, AstOf(d, split, true), Pcond, Bcond);
          forall i | 0 <= i < |P|
            ensures i in pi <==> Hit(CoreRel(), B, P[i])
          {
            IndexListIs(pi, MetBy(AstRelation(d.meaning, AstOf(d, split, true)), Bcond), Pcond, i);
          }
          NothingTracked(P, seen);
          out := EmitKept(P, pi);
      }
    }

    /** No keys: which nested-loop arm. */
    method ProbeNested(P: Table, ghost seen: Table) returns (out: Table)
      requires Built() && !emptyBuild && BitsOf(seen) && Shaped(P, d.probeWidth)
      requires d.keys == [] && d.filter.Some?
      modifies `matched
      ensures BitsOf(seen + P) && AnswersArm(out, P)
    {
      assert SplitReady();
      if split.rest == [] && split.asts != [] && d.joinType != Full {
        out := ProbeNestedRowwise(P, seen);
      } else if split.asts == [] {
        out := ProbeNestedCross(P, seen);
      } else {
        out := ProbeNestedCandidates(P, seen);
      }
    }

    // ---------------------------------------------------------- keyed arms

    /** The row-wise matcher of the semi family: keys and one AST predicate per batch. */
    method ProbeMixed(P: Table, ghost seen: Table) returns (out: Table)
      requires Built() && BitsOf(seen) && Shaped(P, d.probeWidth)
      requires SplitReady() && split.asts != [] && crossIsAst
      modifies `matched
      ensures BitsOf(seen + P) && AnswersArm(out, P)
    {
      assert Bcond == CondTable(d, Build, split.hoistBuild, B) && split.rest == [] && !EmitsPairs(d.joinType);
      hide Built, SplitReady, Shaped, AstUsable, AstOf, CondTable, BitsOf, AnswersArm, CoreRel, CoreOf, Met, Hit,
           MixedMet;
      out := [];
      AstReady(P);
      UsableAst(d, split, taken, cross, B, P);
      MixedRowwise(d, split, taken, cross, B, P);
      CoreIs();
      var Pcond := CondTable(d, Side.Probe, split.hoistProbe, P);
      var Bk, Pk := BuildKeys(d, B), ProbeKeys(d, P);
      if IsBuildSideSemi(d.joinType) {
        var bi := MixedLeftSemiJoin(d.nullEqualsNull, d.meaning, AstOf(d, split, false), Bk, Pk, Bcond, Pcond);
        Note(bi, P, seen);
        SilentArm(P);
        return;
      }
      var pi := MixedLeftSemiJoin(d.nullEqualsNull, d.meaning, AstOf(d, split, true), Pk, Bk, Pcond, Bcond);
      NothingTracked(P, seen);
      out := EmitKept(P, pi);
    }

    lemma CoreIs()
      ensures CoreRel() == CoreOf(d, cross)
    {
    }

    // Without a residual the keys are the core.
    lemma KeysAgree(P: Table)
      requires cross == []
      ensures Agree(KeysOf(d), CoreRel(), B, P)
      ensures forall j :: 0 <= j < |B| ==> Met(KeysOf(d), P, B[j]) == Met(CoreRel(), P, B[j])
      ensures forall i :: 0 <= i < |P| ==> Hit(KeysOf(d), B, P[i]) == Hit(CoreRel(), B, P[i])
    {
    }

    lemma KeyedLeftJoin(P: Table, es: seq<(nat, int)>)
      requires cross == [] && IsLeftJoinList(es, KeyRelation(d.nullEqualsNull), BuildKeys(d, B), ProbeKeys(d, P))
      ensures IsLeftJoinList(es, CoreRel(), B, P)
    {
    }

    lemma KeyedPairs(P: Table, pl: seq<(nat, nat)>)
      requires cross == [] && IsPairList(pl, KeyRelation(d.nullEqualsNull), BuildKeys(d, B), ProbeKeys(d, P))
      ensures IsPairList(pl, CoreRel(), B, P)
    {
    }

    // Build rows the batch's distinct keys reach.
    lemma DistinctNotes(P: Table, D: Table, pl: seq<(nat, nat)>)
      requires cross == [] && AreDistinctKeys(D, d.nullEqualsNull, ProbeKeys(d, P))
      requires IsPairList(pl, KeyRelation(d.nullEqualsNull), BuildKeys(d, B), D)
      ensures forall j :: 0 <= j < |B| ==> (j in BuildIndices(pl) <==> Met(CoreRel(), P, B[j]))
    {
      PairListBits(pl, KeyRelation(d.nullEqualsNull), BuildKeys(d, B), D);
      DistinctRowwise(d, B, P, D);
      KeysAgree(P);
    }

    lemma DistinctHits(P: Table, bi: seq<int>)
      requires cross == [] && AreDistinctKeys(Bd, d.nullEqualsNull, BuildKeys(d, B)) && |bi| == |P|
      requires forall i :: 0 <= i < |P| ==>
                (InRangeIndex(bi[i], |Bd|) <==> Hit(KeyRelation(d.nullEqualsNull), Bd, ProbeKeys(d, P)[i]))
      ensures forall i :: 0 <= i < |P| ==> (InRangeIndex(bi[i], |Bd|) <==> Hit(CoreRel(), B, P[i]))
    {
      DistinctRowwise(d, B, P, Bd);
      KeysAgree(P);
    }

    /** Equi-joins without a residual. */
    method ProbeHashed(P: Table, ghost seen: Table) returns (out: Table)
      requires Built() && !emptyBuild && BitsOf(seen) && d.keys != [] && cross == []
      modifies `matched
      ensures BitsOf(seen + P) && AnswersArm(out, P)
    {
      hide Built, BitsOf, AnswersArm, CoreRel, Met, Hit, IsPairList, IsLeftJoinList, AreDistinctKeys, KeyRelation,
           ProbeKeys, BuildKeys, BuildIndices;
      HashReady();
      out := [];
      var Pk := ProbeKeys(d, P);
      match d.joinType {
        case Inner | Left =>
          var pl := HashInnerJoin(d.nullEqualsNull, hj.value, Pk);
          KeyedPairs(P, pl);
          out := Derive(P, pl, seen);
        case Right | Full =>
          var es := HashLeftJoin(d.nullEqualsNull, hj.value, Pk);
          KeyedLeftJoin(P, es);
          out := EmitLeftJoin(P, es, seen);
        case LeftSemi | LeftAnti | LeftMark =>
          var dk := DistinctKeys(d.nullEqualsNull, Pk);
          var pl := HashInnerJoin(d.nullEqualsNull, hj.value, dk);
          DistinctNotes(P, dk, pl);
          Note(BuildIndices(pl), P, seen);
          SilentArm(P);
        case RightSemi | RightAnti =>
          NothingTracked(P, seen);
          out := EmitDistinct(P);
      }
    }

    /** Each probe row once, kept by whether the distinct keys have its key. */
    method EmitDistinct(P: Table) returns (out: Table)
      requires IsProbeSideSemi(d.joinType) && cross == [] && AreDistinctKeys(Bd, d.nullEqualsNull, BuildKeys(d, B))
      ensures AnswersArm(out, P)
    {
      hide AreDistinctKeys, KeyRelation, CoreRel, Hit;
      var bi := DistinctLeftJoin(d.nullEqualsNull, Bd, ProbeKeys(d, P));
      DistinctHits(P, bi);
      var bound := |Bd|;
      var hit := seq(|P|, i requires 0 <= i < |P| => InRangeIndex(bi[i], bound));
      var kept := KeptProbeRows(P, hit);
      out := Map(Project(d), kept);
      KeptIsArm(P, kept);
    }

    lemma HashReady()
      requires Built() && !emptyBuild && d.keys != [] && cross == []
      ensures !IsProbeSideSemi(d.joinType) ==> hj == Some(BuildKeys(d, B))
      ensures IsProbeSideSemi(d.joinType) ==> AreDistinctKeys(Bd, d.nullEqualsNull, BuildKeys(d, B))
    {
    }

    lemma KeptIsArm(P: Table, kept: Table)
      requires IsProbeSideSemi(d.joinType) && kept == Where(KeptBy(d, CoreRel(), probeOnly, B), P)
      ensures AnswersArm(Map(Project(d), kept), P)
    {
    }

    /** No keys and no condition. */
    method ProbeCross(P: Table, ghost seen: Table) returns (out: Table)
      requires d.keys == [] && cross == [] && d.joinType == Inner
      ensures BitsOf(seen + P) && AnswersArm(out, P)
    {
      hide Pairs, Map, Project, CoreOf, Always, BitsAre;
      var rows := CrossJoin(B, P);
      CrossAgrees(d, B, P);
      PairsAgree(Always(), CoreRel(), B, P);
      MapPermutes(Project(d), rows, Pairs(CoreRel(), B, P));
      out := Map(Project(d), rows);
    }

    // ---------------------------------------------------------- an empty build side

    lemma EmptyBuildBits(P: Table, seen: Table)
      requires NoBuildRowMatches(CoreRel(), B) && BitsOf(seen)
      ensures BitsOf(seen + P)
    {
      if Tracks(d.joinType) {
        forall j | 0 <= j < |B|
          ensures !Met(CoreRel(), P, B[j])
        {
          assert forall i :: 0 <= i < |P| ==> !Hit(CoreRel(), B, P[i]);
        }
        BitsThen(matched, [], CoreRel(), B, seen, P);
        assert SetTrue(matched, []) == matched;
      }
    }

    /** The arm of a build side that cannot match: each type answers from the probe rows alone. */
    method ProbeEmptyBuild(P: Table) returns (out: Table)
      requires NoBuildRowMatches(CoreRel(), B)
      ensures AnswersArm(out, P)
    {
      hide Where, Pairs, PadBuild, CoreOf, Project, Map, HitBy, MissedBy;
      ghost var m := CoreRel();
      NoMatches(m, B, P);
      match d.joinType {
        case LeftSemi | LeftAnti | LeftMark =>
          out := [];
        case Right | Full =>
          out := Map(Project(d), Map(PadBuild(d), P));
          assert ArmPart(d, m, probeOnly, B, P) == Map(PadBuild(d), P);
        case RightAnti =>
          WhereAll(KeptBy(d, m, probeOnly, B), P);
          out := Map(Project(d), P);
        case RightSemi =>
          WhereNone(KeptBy(d, m, probeOnly, B), P);
          out := [];
        case Inner | Left =>
          out := [];
      }
    }

    // ---------------------------------------------------------- the calls

    lemma ScreenedThen(P: Table)
      ensures Screened(d, probeOnly, probed + P) == Screened(d, probeOnly, probed) + Screened(d, probeOnly, P)
    {
      WhereThen(ProbeTest(d, probeOnly), probed, P);
    }

    lemma ScreenedShaped(P: Table)
      requires Shaped(P, d.probeWidth)
      ensures Shaped(Screened(d, probeOnly, P), d.probeWidth)
    {
      forall r | r in Screened(d, probeOnly, P)
        ensures r in P
      {
        WhereHolds(ProbeTest(d, probeOnly), P, r);
      }
    }

    /** Drops the rows of a batch that cannot witness a match of a build-side semi join. */
    method Screen(P: Table) returns (Q: Table)
      ensures Q == Screened(d, probeOnly, P)
    {
      Q := P;
      if IsBuildSideSemi(d.joinType) {
        if probeOnly != [] {
          var keep := EvalOn(d, probeOnly, Side.Probe, P);
          MaskedIsWhere(ProbeTest(d, probeOnly), P, keep);
          Q := Masked(P, keep);
        } else {
          WhereAll(ProbeTest(d, probeOnly), P);
        }
      }
    }

    lemma ArmChoice()
      requires Built() && !emptyBuild
      ensures d.keys == [] && d.filter.None? ==> cross == [] && d.joinType == Inner
      ensures d.keys != [] && cross != [] && crossIsAst ==> SplitReady() && split.asts != []
      ensures d.keys != [] && cross != [] && !crossIsAst ==> hj == Some(BuildKeys(d, B))
    {
      if d.keys != [] && cross != [] && crossIsAst {
        assert cross[0] in cross;
      }
    }

    /** The arm a screened batch takes. */
    method ProbeArm(Q: Table, ghost seen: Table) returns (out: Table)
      requires Built() && !emptyBuild && BitsOf(seen) && Shaped(Q, d.probeWidth)
      modifies `matched
      ensures BitsOf(seen + Q) && AnswersArm(out, Q)
    {
      hide *;
      ArmChoice();
      if d.keys == [] {
        if d.filter.Some? {
          out := ProbeNested(Q, seen);
        } else {
          out := ProbeCross(Q, seen);
        }
      } else if cross != [] {
        if crossIsAst {
          out := ProbeMixed(Q, seen);
        } else {
          out := ProbePairs(Q, seen);
        }
      } else {
        out := ProbeHashed(Q, seen);
      }
    }

    // An arm's answer, pushdown undone, is the declarative probe part.
    lemma ArmIsDeclarative(P: Table, out: Table)
      requires Built() && !IsBuildSideSemi(d.joinType) && AnswersArm(out, P)
      ensures multiset(out) == multiset(Map(Project(d), ProbePart(d, MatchOf(d), B0, P)))
    {
      ArmAnswers(d, cross, buildOnly, probeOnly, B0, B, P);
    }

    lemma EmptyIsHopeless()
      requires Built() && emptyBuild
      ensures NoBuildRowMatches(CoreRel(), B)
    {
    }

    /** One probe batch: refused by a finished join, broken off by a map that names no column, and
        otherwise counted in, with the batch's share of the declarative join as the answer of the
        types that answer before the finish. */
    method Probe(P: Table) returns (a: Answer)
      requires Valid() && Shaped(P, d.probeWidth)
      modifies `matched, `probed
      ensures Valid()
      ensures a == Refused <==> finished
      ensures a == Threw <==> !finished && BreaksProbe(d, B0)
      ensures a == Refused || a == Threw ==> probed == old(probed) && matched == old(matched)
      ensures a != Refused && a != Threw ==> probed == old(probed) + P
      ensures a == Silent ==> IsBuildSideSemi(d.joinType)
      ensures a.Rows? ==>
        !IsBuildSideSemi(d.joinType) && multiset(a.table) == multiset(Map(Project(d), ProbePart(d, MatchOf(d), B0, P)))
      ensures a.Rows? ==> AnswersByProbe(d, B0, P, a.table)
    {
      hide *;
      if finished {
        return Refused;
      }
      Opened();
      ProbeBreaks();
      var looksUp := !emptyBuild && (cross != [] || probeOnly != []);
      if !ProbeKeysOk(d) || (looksUp && !MapOk(d)) || (!IsBuildSideSemi(d.joinType) && !ProjectionOk(d)) {
        return Threw;
      }
      ghost var seen := Screened(d, probeOnly, probed);
      ScreenedThen(P);
      ScreenedShaped(P);
      var out: Table;
      if emptyBuild {
        EmptyIsHopeless();
        EmptyBuildBits(Screened(d, probeOnly, P), seen);
        out := ProbeEmptyBuild(P);
      } else {
        var Q := Screen(P);
        out := ProbeArm(Q, seen);
        NotScreened(P);
      }
      probed := probed + P;
      Closed();
      if IsBuildSideSemi(d.joinType) {
        a := Silent;
      } else {
        ArmIsDeclarative(P, out);
        ProbeAnswer(d, B0, P, out);
        a := Rows(out);
      }
    }

    // What breaks a call, told by the plan and the build side alone.
    lemma ProbeBreaks()
      requires Built()
      ensures BreaksProbe(d, B0) <==>
                || !ProbeKeysOk(d)
                || (!emptyBuild && (cross != [] || probeOnly != []) && !MapOk(d))
                || (!IsBuildSideSemi(d.joinType) && !ProjectionOk(d))
    {
      if !MapOk(d) {
        hide MapOk, ProjectionOk, ProbeKeysOk, OneSided, Crossing, Prepared, Refuses;
        NothingFiltered();
        HopelessIs();
        ListsTell();
      }
    }

    lemma NothingFiltered()
      requires Received() && !MapOk(d)
      ensures B == B0
    {
      if IsProbeSideSemi(d.joinType) {
        WhereAll(BuildTest(d, buildOnly), B0);
      }
    }

    lemma HopelessIs()
      requires Built() && B == B0
      ensures emptyBuild <==> Hopeless(d, B0)
    {
      hide Refuses, Prepared, NoBuildRowMatches, OneSided, Crossing;
      ListsTell();
      var K := BuildKeys(d, B);
      if B != [] {
        assert B[0] in B && K[0] in K;
        forall b | b in B
          ensures BuildKey(d, b) in K
        {
          var j :| 0 <= j < |B| && B[j] == b;
          assert K[j] in K;
        }
        forall k | k in K
          ensures exists b :: b in B && BuildKey(d, b) == k
        {
          var j :| 0 <= j < |K| && K[j] == k;
          assert B[j] in B;
        }
      }
    }

    // The lists are empty exactly when no conjunct belongs in them.
    lemma ListsTell()
      requires ResidualSplit(d, cross, buildOnly, probeOnly)
      ensures cross == [] <==> forall c :: c in ConjunctsOf(d) ==> !Crossing(d, c)
      ensures cross != [] || probeOnly != [] <==> exists c :: c in ConjunctsOf(d) && !OneSided(d, c, Build)
      ensures buildOnly != [] <==> exists c :: c in ConjunctsOf(d) && OneSided(d, c, Build)
    {
      if cross != [] {
        assert cross[0] in cross;
      }
      if probeOnly != [] {
        assert probeOnly[0] in probeOnly;
      }
      if buildOnly != [] {
        assert buildOnly[0] in buildOnly;
      }
    }

    lemma FinishBreaks()
      requires Built()
      ensures BreaksFinish(d) <==>
                || (IsBuildSideSemi(d.joinType) && buildOnly != [] && !MapOk(d))
                || (Tracks(d.joinType) && !ProjectionOk(d))
    {
      hide Refuses, Prepared, OneSided, Crossing, MapOk, ProjectionOk;
      ListsTell();
    }

    lemma Opened()
      requires Valid()
      ensures Built() && BitsOf(Screened(d, probeOnly, probed))
    {
    }

    lemma Closed()
      requires Built() && BitsOf(Screened(d, probeOnly, probed))
      ensures Valid()
    {
    }

    lemma NotScreened(P: Table)
      ensures !IsBuildSideSemi(d.joinType) ==> Screened(d, probeOnly, P) == P
    {
    }

    // The bits at the end, ANDed with the build's own conjuncts, say which build rows have a
    // match among all the probe rows.
    lemma FinalBits(j: nat)
      requires Built() && BitsOf(Screened(d, probeOnly, probed)) && Tracks(d.joinType) && j < |B|
      ensures |matched| == |B|
      ensures matched[j] && BuildTest(d, buildOnly)(B[j]) <==> Met(MatchOf(d), probed, B[j])
      ensures !IsBuildSideSemi(d.joinType) ==> BuildTest(d, buildOnly)(B[j])
    {
      BuildSemiMeans(d, cross, buildOnly, probeOnly, probed, B[j]);
      if !IsBuildSideSemi(d.joinType) {
        WhereAll(ProbeTest(d, probeOnly), probed);
      }
    }

    /** Once, after the last probe: what the build rows' fates decide. */
    method Finish() returns (a: Answer)
      requires Valid()
      modifies `finished
      ensures finished && Valid()
      ensures a == Refused <==> old(finished)
      ensures a == Threw <==> !old(finished) && BreaksFinish(d)
      ensures a == Silent <==> !old(finished) && !Tracks(d.joinType)
      ensures a.Rows? ==>
        a == Rows(Map(Project(d), BuildPart(d, MatchOf(d), B0, probed)))
      ensures a.Rows? ==> AnswersAtFinish(d, B0, probed, a.table)
    {
      if finished {
        return Refused;
      }
      finished := true;
      hide MapOk, ProjectionOk, Built, BitsOf, BuildPart, Project, MatchOf, BreaksFinish;
      FinishBreaks();
      if !Tracks(d.joinType) {
        return Silent;
      }
      if (IsBuildSideSemi(d.joinType) && buildOnly != [] && !MapOk(d)) || !ProjectionOk(d) {
        return Threw;
      }
      hide *;
      TrackedBits();
      var m := matched;
      if IsBuildSideSemi(d.joinType) && buildOnly != [] {
        m := Both(m, EvalOn(d, buildOnly, Build, B));
      }
      forall j | 0 <= j < |B|
        ensures m[j] == Met(MatchOf(d), probed, B[j])
      {
        FinalBits(j);
        BuildTestIs(B[j]);
      }
      var rows := FinishRows(d, B, m, probed);
      a := Rows(Map(Project(d), rows));
      FinishAnswer(d, B, probed, a.table);
    }

    lemma TrackedBits()
      requires Built() && BitsOf(Screened(d, probeOnly, probed)) && Tracks(d.joinType)
      ensures B == B0 && |matched| == |B|
    {
    }

    lemma BuildTestIs(b: Row)
      ensures BuildTest(d, buildOnly)(b) == TrueOn(d.meaning, buildOnly, d.columns, Build, b)
      ensures buildOnly == [] ==> BuildTest(d, buildOnly)(b)
    {
    }
  }

  function WithMark(B: Table, m: seq<bool>): (rows: Table)
    requires |m| == |B|
    ensures |rows| == |B| && forall j :: 0 <= j < |B| ==> rows[j] == B[j] + [Bool(m[j])]
  {
    seq(|B|, j requires 0 <= j < |B| => B[j] + [Bool(m[j])])
  }

  /** The build rows' part of the answer, from the bit that says which have a match. */
  method FinishRows(d: Desc, B: Table, m: seq<bool>, ghost P: Table) returns (rows: Table)
    requires Tracks(d.joinType) && |m| == |B| && forall j :: 0 <= j < |B| ==> m[j] == Met(MatchOf(d), P, B[j])
    ensures rows == BuildPart(d, MatchOf(d), B, P)
    ensures forall x :: multiset(rows)[x] == CountAtFinish(d, B, P, x)
  {
    hide MatchOf, Met, CountAtFinish;
    forall x
      ensures multiset(BuildPart(d, MatchOf(d), B, P))[x] == CountAtFinish(d, B, P, x)
    {
      BuildPartCount(d, B, P, x);
    }
    MaskedIsWhere(MetBy(MatchOf(d), P), B, m);
    MaskedIsWhere(UnmetBy(MatchOf(d), P), B, Negated(m));
    match d.joinType {
      case Left | Full => rows := Map(PadProbe(d), Masked(B, Negated(m)));
      case LeftMark => rows := WithMark(B, m);
      case LeftSemi => rows := Masked(B, m);
      case LeftAnti => rows := Masked(B, Negated(m));
      case Inner | Right | RightSemi | RightAnti => assert false; rows := [];
    }
  }

  // ------------------------------------------------------------ whole joins

  datatype Opened = Opened(session: JoinSession) | NotOpened(why: Refusal)

  /** Taking a build side: refuses a plan the session cannot run, otherwise opens a session. */
  method Open(d: Desc, build: Option<Table>) returns (r: Opened)
    requires build.Some? ==> Shaped(build.value, d.buildWidth)
    ensures r.NotOpened? <==> OpenRefuses(d, build).Some?
    ensures r.NotOpened? ==> OpenRefuses(d, build) == Some(r.why)
    ensures r.Opened? ==>
      && fresh(r.session) && r.session.Valid() && r.session.d == d && r.session.probed == [] && !r.session.finished
      && r.session.B0 == (if build.Some? then build.value else [])
  {
    match OpenRefuses(d, build) {
      case Some(why) => r := NotOpened(why);
      case None =>
        var s := new JoinSession(d, build);
        r := Opened(s);
    }
  }

  // What is refused for the plan alone, then a map that names a column a side does not have where
  // the build side looks one up.
  function OpenRefuses(d: Desc, build: Option<Table>): Option<Refusal> {
    if Refuses(d).Some? then Refuses(d)
    else if !MapOk(d) && LooksUpAtBuild(d, if build.Some? then build.value else []) then Some(FilterColumnPastSide)
    else None
  }

  // The plan's refusals, each told by what it finds and what was looked at before.
  lemma RefusedFor(d: Desc)
    ensures Refuses(d) == Some(ZeroChunkBudget) <==> d.chunkBytes == 0
    ensures Refuses(d) == Some(KeyColumnPastSide) <==>
              d.chunkBytes > 0 && exists k :: 0 <= k < |d.keys| && d.keys[k].0 >= d.buildWidth
    ensures Refuses(d) == Some(EmptyProjection) <==>
              && d.chunkBytes > 0 && (forall k :: 0 <= k < |d.keys| ==> d.keys[k].0 < d.buildWidth)
              && d.projection == Some([])
    ensures Refuses(d) == Some(FilterColumnOutOfRange) <==>
              && d.chunkBytes > 0 && (forall k :: 0 <= k < |d.keys| ==> d.keys[k].0 < d.buildWidth)
              && d.projection != Some([])
              && d.filter.Some? && !NamesWithin(d.filter.value, |d.columns|)
    ensures Refuses(d) == Some(PredicateFreeOuter) <==>
              && d.chunkBytes > 0 && d.projection != Some([])
              && d.keys == [] && d.filter.None? && d.joinType != Inner
    ensures Refuses(d) != Some(FilterColumnPastSide)
  {
    hide NamesWithin, InRange, Conjuncts;
    NamedOutOfRange(d);
    assert (exists k :: k in d.keys && k.0 >= d.buildWidth) <==>
           exists k :: 0 <= k < |d.keys| && d.keys[k].0 >= d.buildWidth;
  }

  lemma NamedOutOfRange(d: Desc)
    ensures (exists c :: c in ConjunctsOf(d) && !InRange(c, d.columns)) <==>
            d.filter.Some? && !NamesWithin(d.filter.value, |d.columns|)
  {
    hide NamesWithin, InRange, Conjuncts;
    if d.filter.Some? {
      ConjunctsWithin(d.filter.value, |d.columns|);
      forall c
        ensures InRange(c, d.columns) <==> NamesWithin(c, |d.columns|)
      {
        InRangeOfNames(c, d.columns);
      }
    }
  }

  // What has been answered after some batches.
  ghost predicate Answered(d: Desc, B: Table, P: Table, out: Table) {
    multiset(out) == multiset(Map(Project(d), ProbePart(d, MatchOf(d), B, P)))
  }

  lemma AnsweredThen(d: Desc, B: Table, P: Table, Q: Table, out: Table, part: Table)
    requires Answered(d, B, P, out) && Answered(d, B, Q, part)
    ensures Answered(d, B, P + Q, out + part)
  {
    var m := MatchOf(d);
    ProbePartThen(d, m, B, P, Q);
    MapPermutes(Project(d), ProbePart(d, m, B, P + Q), ProbePart(d, m, B, P) + ProbePart(d, m, B, Q));
    MapThen(Project(d), ProbePart(d, m, B, P), ProbePart(d, m, B, Q));
  }

  lemma SilentAnswers(d: Desc, B: Table, P: Table)
    requires IsBuildSideSemi(d.joinType) || P == []
    ensures Answered(d, B, P, [])
  {
  }

  lemma JoinIs(d: Desc, B: Table, P: Table, out: Table)
    requires Answered(d, B, P, out)
    ensures multiset(out + Map(Project(d), BuildPart(d, MatchOf(d), B, P))) == multiset(Join(d, B, P))
    ensures !Tracks(d.joinType) ==> multiset(out) == multiset(Join(d, B, P))
  {
    MapThen(Project(d), ProbePart(d, MatchOf(d), B, P), BuildPart(d, MatchOf(d), B, P));
  }

  datatype Streamed = NotRun(why: Refusal) | Broken | Joined(rows: Table)

  /** A whole streamed join: whatever the type, the build side (or none) and the batches (or
      none), the rows answered are those of the declarative join of the whole inputs. A plan that
      is not refused gets there unless one of its calls needs a column that does not exist. `full`
      are the rows answered as they were before the plan's projection. */
  method StreamedJoin(d: Desc, build: Option<Table>, batches: seq<Table>) returns (r: Streamed, ghost full: Table)
    requires build.Some? ==> Shaped(build.value, d.buildWidth)
    requires forall i :: 0 <= i < |batches| ==> Shaped(batches[i], d.probeWidth)
    ensures r.NotRun? <==> OpenRefuses(d, build).Some?
    ensures r.Broken? <==>
      && OpenRefuses(d, build).None?
      && ((batches != [] && BreaksProbe(d, if build.Some? then build.value else [])) || BreaksFinish(d))
    ensures r.Joined? ==>
      multiset(r.rows) == multiset(Join(d, if build.Some? then build.value else [], Concat(batches)))
    ensures r.Joined? ==> AreProjected(d, full, r.rows) && forall x ::
      multiset(full)[x] == RowCount(d, if build.Some? then build.value else [], Concat(batches), x)
    ensures r.Joined? ==> forall x :: x in full ==> |x| == EmittedWidth(d)
  {
    hide *;
    full := [];
    var began := Open(d, build);
    if began.NotOpened? {
      return NotRun(began.why), full;
    }
    var s := began.session;
    ghost var B := if build.Some? then build.value else [];
    var out := [];
    SilentAnswers(d, B, []);
    ConcatSteps(batches, 0);
    for i := 0 to |batches|
      invariant s.Valid() && fresh(s) && s.d == d && s.B0 == B && !s.finished
      invariant s.probed == Concat(batches[..i])
      invariant Answered(d, B, s.probed, out) && (i > 0 ==> !BreaksProbe(d, B))
    {
      ConcatSteps(batches, i);
      ghost var before := s.probed;
      var a := s.Probe(batches[i]);
      if a.Threw? {
        return Broken, full;
      }
      if a.Rows? {
        AnsweredIs(d, B, batches[i], a.table);
        AnsweredThen(d, B, before, batches[i], out, a.table);
        out := out + a.table;
      } else {
        SilentAnswers(d, B, batches[i]);
        AnsweredThen(d, B, before, batches[i], out, []);
        assert out + [] == out;
      }
    }
    assert batches[..|batches|] == batches;
    JoinIs(d, B, s.probed, out);
    var a := s.Finish();
    if a.Threw? {
      return Broken, full;
    }
    if a.Rows? {
      out := out + a.table;
    }
    full := JoinAnswer(d, B, s.probed, out);
    CountsAre(d, B, s.probed, full);
    WidthsAre(d, build, B, batches, full);
    return Joined(out), full;
  }

  lemma CountsAre(d: Desc, B: Table, P: Table, full: Table)
    requires CountsJoin(d, B, P, full)
    ensures forall x :: multiset(full)[x] == RowCount(d, B, P, x)
  {
  }

  lemma WidthsAre(d: Desc, build: Option<Table>, B: Table, batches: seq<Table>, full: Table)
    requires build.Some? ==> Shaped(build.value, d.buildWidth)
    requires B == if build.Some? then build.value else []
    requires forall i :: 0 <= i < |batches| ==> Shaped(batches[i], d.probeWidth)
    requires CountsJoin(d, B, Concat(batches), full)
    ensures forall x :: x in full ==> |x| == EmittedWidth(d)
  {
    hide RowCount, EmittedWidth;
    ConcatShaped(batches, d.probeWidth);
    forall x | x in full
      ensures |x| == EmittedWidth(d)
    {
      assert multiset(full)[x] > 0;
      RowsAreWide(d, B, Concat(batches), x);
    }
  }

  lemma {:induction false} ConcatShaped(batches: seq<Table>, width: nat)
    requires forall i :: 0 <= i < |batches| ==> Shaped(batches[i], width)
    ensures Shaped(Concat(batches), width)
    decreases |batches|
  {
    if batches != [] {
      ConcatShaped(batches[..|batches| - 1], width);
    }
  }

  lemma ConcatSteps(batches: seq<Table>, i: nat)
    requires i <= |batches|
    ensures Concat<Row>([]) == [] && batches[..0] == []
    ensures i < |batches| ==> Concat(batches[..i + 1]) == Concat(batches[..i]) + batches[i]
  {
    if i < |batches| {
      assert batches[..i + 1][..i] == batches[..i];
    }
  }

  lemma AnsweredIs(d: Desc, B: Table, P: Table, out: Table)
    requires multiset(out) == multiset(Map(Project(d), ProbePart(d, MatchOf(d), B, P)))
    ensures Answered(d, B, P, out)
  {
  }
}
