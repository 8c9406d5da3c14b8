/**
  Why each execution arm answers the declarative join. The residual is split by side, one-side
  conjuncts of the semi family leave the pairs, and what is left is one relation between a build
  and a probe row, the core. Every arm, whatever the device calls it is made of, answers its
  join type for that relation; the pushdown lemmas put the removed conjuncts back.
 */
module JoinArms {
  import opened Basics
  import opened Tables
  import opened JoinResidual
  import opened JoinSpec
  import opened Cudf

  // ------------------------------------------------------------ the residual, split by side

  function ConjunctsOf(d: Desc): seq<Expr> {
    if d.filter.None? then [] else Conjuncts(d.filter.value)
  }

  // The joins whose one-side conjuncts are tested apart from the pairs.
  predicate PushesDown(d: Desc) {
    (IsBuildSideSemi(d.joinType) || IsProbeSideSemi(d.joinType)) && d.keys != []
  }

  // A conjunct of such a join that reads `side` and nothing of the other.
  predicate OneSided(d: Desc, c: Expr, side: Side) {
    PushesDown(d) && Reads(c, d.columns, side) && ReadsOnly(c, d.columns, side)
  }

  predicate Crossing(d: Desc, c: Expr) {
    !OneSided(d, c, Build) && !OneSided(d, c, Probe)
  }

  // Every conjunct is in exactly the list its reads send it to.
  ghost predicate ResidualSplit(d: Desc, cross: seq<Expr>, buildOnly: seq<Expr>, probeOnly: seq<Expr>) {
    && (forall c :: c in ConjunctsOf(d) <==> c in cross || c in buildOnly || c in probeOnly)
    && (forall c :: c in buildOnly ==> OneSided(d, c, Build))
    && (forall c :: c in probeOnly ==> OneSided(d, c, Probe))
    && (forall c :: c in cross ==> Crossing(d, c))
    && (forall c :: c in cross ==> InRange(c, d.columns))
    && AllReadOnly(buildOnly, d.columns, Build)
    && AllReadOnly(probeOnly, d.columns, Probe)
    && (!PushesDown(d) ==> buildOnly == [] && probeOnly == [])
    && (d.filter.Some? && !PushesDown(d) ==> cross != [])
    && (d.filter.None? ==> cross == [])
  }

  // What a pair must satisfy once the one-side conjuncts are gone.
  predicate Core(d: Desc, cross: seq<Expr>, b: Row, p: Row) {
    KeysMatch(d, b, p) && AllTrue(d.meaning, cross, PairRow(d.columns, b, p))
  }

  function CoreOf(d: Desc, cross: seq<Expr>): Relation {
    (b, p) => Core(d, cross, b, p)
  }

  function BuildTest(d: Desc, buildOnly: seq<Expr>): Row -> bool {
    b => TrueOn(d.meaning, buildOnly, d.columns, Build, b)
  }

  function ProbeTest(d: Desc, probeOnly: seq<Expr>): Row -> bool {
    p => TrueOn(d.meaning, probeOnly, d.columns, Probe, p)
  }

  // A pair matches exactly when its core holds and each side passes its own conjuncts.
  lemma MatchSplits(d: Desc, cross: seq<Expr>, buildOnly: seq<Expr>, probeOnly: seq<Expr>, b: Row, p: Row)
    requires ResidualSplit(d, cross, buildOnly, probeOnly)
    ensures Matches(d, b, p) <==>
            Core(d, cross, b, p) && BuildTest(d, buildOnly)(b) && ProbeTest(d, probeOnly)(p)
  {
    var row := PairRow(d.columns, b, p);
    TrueOnMeans(d.meaning, buildOnly, d.columns, Build, b, p);
    TrueOnMeans(d.meaning, probeOnly, d.columns, Probe, b, p);
    if d.filter.Some? {
      ConjunctsMean(d.meaning, d.filter.value, row);
    }
    assert AllTrue(d.meaning, ConjunctsOf(d), row) <==>
           AllTrue(d.meaning, cross, row) && AllTrue(d.meaning, buildOnly, row) && AllTrue(d.meaning, probeOnly, row);
  }

  // Filtering the build early and testing the probe's own conjuncts late: a probe row has a
  // match exactly when it has a core match among the kept build rows and passes its own test.
  lemma ProbeSemiMeans(d: Desc, cross: seq<Expr>, buildOnly: seq<Expr>, probeOnly: seq<Expr>, B: Table, p: Row)
    requires ResidualSplit(d, cross, buildOnly, probeOnly)
    ensures Hit(MatchOf(d), B, p) <==>
            Hit(CoreOf(d, cross), Where(BuildTest(d, buildOnly), B), p) && ProbeTest(d, probeOnly)(p)
  {
    var kept := Where(BuildTest(d, buildOnly), B);
    if j :| 0 <= j < |B| && MatchOf(d)(B[j], p) {
      MatchSplits(d, cross, buildOnly, probeOnly, B[j], p);
      WhereHolds(BuildTest(d, buildOnly), B, B[j]);
      var k :| 0 <= k < |kept| && kept[k] == B[j];
    }
    if Hit(CoreOf(d, cross), kept, p) && ProbeTest(d, probeOnly)(p) {
      var k :| 0 <= k < |kept| && CoreOf(d, cross)(kept[k], p);
      WhereHolds(BuildTest(d, buildOnly), B, kept[k]);
      var j :| 0 <= j < |B| && B[j] == kept[k];
      MatchSplits(d, cross, buildOnly, probeOnly, B[j], p);
    }
  }

  // The same from the build's side: filtering each probe batch, testing the build at the end.
  lemma BuildSemiMeans(d: Desc, cross: seq<Expr>, buildOnly: seq<Expr>, probeOnly: seq<Expr>, P: Table, b: Row)
    requires ResidualSplit(d, cross, buildOnly, probeOnly)
    ensures Met(MatchOf(d), P, b) <==>
            Met(CoreOf(d, cross), Where(ProbeTest(d, probeOnly), P), b) && BuildTest(d, buildOnly)(b)
  {
    var kept := Where(ProbeTest(d, probeOnly), P);
    if i :| 0 <= i < |P| && MatchOf(d)(b, P[i]) {
      MatchSplits(d, cross, buildOnly, probeOnly, b, P[i]);
      WhereHolds(ProbeTest(d, probeOnly), P, P[i]);
      var k :| 0 <= k < |kept| && kept[k] == P[i];
    }
    if Met(CoreOf(d, cross), kept, b) && BuildTest(d, buildOnly)(b) {
      var k :| 0 <= k < |kept| && CoreOf(d, cross)(b, kept[k]);
      WhereHolds(ProbeTest(d, probeOnly), P, kept[k]);
      var i :| 0 <= i < |P| && P[i] == kept[k];
      MatchSplits(d, cross, buildOnly, probeOnly, b, P[i]);
    }
  }

  // ------------------------------------------------------------ relations that agree

  ghost predicate Agree(m: Relation, m': Relation, B: Table, P: Table) {
    forall j, i :: 0 <= j < |B| && 0 <= i < |P| ==> m(B[j], P[i]) == m'(B[j], P[i])
  }

  lemma HitAgrees(m: Relation, m': Relation, B: Table, P: Table, i: nat)
    requires Agree(m, m', B, P) && i < |P|
    ensures Hit(m, B, P[i]) == Hit(m', B, P[i])
  {
  }

  lemma {:induction false} RowsWithAgree(m: Relation, m': Relation, B: Table, p: Row)
    requires forall j :: 0 <= j < |B| ==> m(B[j], p) == m'(B[j], p)
    ensures RowsWith(m, B, p) == RowsWith(m', B, p)
    decreases |B|
  {
    if B != [] {
      RowsWithAgree(m, m', B[..|B| - 1], p);
    }
  }

  lemma {:induction false} PairsAgree(m: Relation, m': Relation, B: Table, P: Table)
    requires Agree(m, m', B, P)
    ensures Pairs(m, B, P) == Pairs(m', B, P)
    decreases |P|
  {
    if P != [] {
      PairsAgree(m, m', B, P[..|P| - 1]);
      RowsWithAgree(m, m', B, P[|P| - 1]);
    }
  }

  lemma ProbePartAgrees(d: Desc, m: Relation, m': Relation, B: Table, P: Table)
    requires Agree(m, m', B, P)
    ensures ProbePart(d, m, B, P) == ProbePart(d, m', B, P)
  {
    PairsAgree(m, m', B, P);
    forall p | p in P
      ensures Hit(m, B, p) == Hit(m', B, p)
    {
      var i :| 0 <= i < |P| && P[i] == p;
      HitAgrees(m, m', B, P, i);
    }
    WhereSame(HitBy(m, B), HitBy(m', B), P);
    WhereSame(MissedBy(m, B), MissedBy(m', B), P);
  }

  // A pair list over other tables of the same length is one over these, if the relations agree
  // index by index: how key columns and condition tables stand in for the rows.
  lemma PairListTransfers(pl: seq<(nat, nat)>, m: Relation, B: Table, P: Table, m': Relation, B': Table, P': Table)
    requires IsPairList(pl, m, B, P) && |B'| == |B| && |P'| == |P|
    requires forall j, i :: 0 <= j < |B| && 0 <= i < |P| ==> m(B[j], P[i]) == m'(B'[j], P'[i])
    ensures IsPairList(pl, m', B', P')
  {
  }

  lemma LeftJoinListTransfers(es: seq<(nat, int)>, m: Relation, B: Table, P: Table, m': Relation, B': Table, P': Table)
    requires IsLeftJoinList(es, m, B, P) && |B'| == |B| && |P'| == |P|
    requires forall j, i :: 0 <= j < |B| && 0 <= i < |P| ==> m(B[j], P[i]) == m'(B'[j], P'[i])
    ensures IsLeftJoinList(es, m', B', P')
  {
  }

  // Dropping the candidates that fail leaves the pairs of the conjunction.
  lemma PairListFilters(
      pl: seq<(nat, nat)>, kept: seq<(nat, nat)>, keep: ((nat, nat)) -> bool, cand: Relation, m: Relation, B: Table,
      P: Table)
    requires IsPairList(pl, cand, B, P) && kept == Where(keep, pl)
    requires forall j: nat, i: nat :: j < |B| && i < |P| ==> (m(B[j], P[i]) <==> cand(B[j], P[i]) && keep((j, i)))
    ensures IsPairList(kept, m, B, P)
  {
    WhereNoDup(keep, pl);
    forall j: nat, i: nat
      ensures (j, i) in kept <==> j < |B| && i < |P| && m(B[j], P[i])
    {
      WhereHolds(keep, pl, (j, i));
    }
  }

  // ------------------------------------------------------------ what an arm answers

  // The probe rows a probe-side semi or anti join keeps: anti is semi's exact complement.
  function KeptBy(d: Desc, m: Relation, probeOnly: seq<Expr>, B: Table): Row -> bool {
    p => (Hit(m, B, p) && ProbeTest(d, probeOnly)(p)) == (d.joinType == RightSemi)
  }

  function ArmPart(d: Desc, m: Relation, probeOnly: seq<Expr>, B: Table, P: Table): Table {
    if IsProbeSideSemi(d.joinType) then Where(KeptBy(d, m, probeOnly, B), P) else ProbePart(d, m, B, P)
  }

  lemma ArmPartThen(d: Desc, m: Relation, probeOnly: seq<Expr>, B: Table, P: Table, Q: Table)
    ensures multiset(ArmPart(d, m, probeOnly, B, P + Q)) ==
            multiset(ArmPart(d, m, probeOnly, B, P)) + multiset(ArmPart(d, m, probeOnly, B, Q))
  {
    if IsProbeSideSemi(d.joinType) {
      WhereThen(KeptBy(d, m, probeOnly, B), P, Q);
    } else {
      ProbePartThen(d, m, B, P, Q);
    }
  }

  // The rows an arm hands out, projected.
  function ArmRows(d: Desc, m: Relation, probeOnly: seq<Expr>, B: Table, P: Table): Table {
    Map(Project(d), ArmPart(d, m, probeOnly, B, P))
  }

  // Answers to consecutive ranges are together the answer to the whole: chunking is invisible.
  lemma ArmRowsThen(d: Desc, m: Relation, probeOnly: seq<Expr>, B: Table, P: Table, Q: Table, out: Table, part: Table)
    requires multiset(out) == multiset(ArmRows(d, m, probeOnly, B, P))
    requires multiset(part) == multiset(ArmRows(d, m, probeOnly, B, Q))
    ensures multiset(out + part) == multiset(ArmRows(d, m, probeOnly, B, P + Q))
  {
    var x, y := ArmPart(d, m, probeOnly, B, P), ArmPart(d, m, probeOnly, B, Q);
    ArmPartThen(d, m, probeOnly, B, P, Q);
    MapPermutes(Project(d), ArmPart(d, m, probeOnly, B, P + Q), x + y);
    MapThen(Project(d), x, y);
  }

  lemma ArmRowsNone(d: Desc, m: Relation, probeOnly: seq<Expr>, B: Table)
    ensures ArmRows(d, m, probeOnly, B, []) == []
  {
  }

  function KeysOf(d: Desc): Relation {
    (b, p) => KeysMatch(d, b, p)
  }

  // Over a whole batch an arm's answer is the declarative probe part, pushdown undone.
  lemma ArmAnswers(d: Desc, cross: seq<Expr>, buildOnly: seq<Expr>, probeOnly: seq<Expr>, B0: Table, B: Table, P: Table)
    requires ResidualSplit(d, cross, buildOnly, probeOnly)
    requires B == if IsProbeSideSemi(d.joinType) then Where(BuildTest(d, buildOnly), B0) else B0
    ensures ArmPart(d, CoreOf(d, cross), probeOnly, B, P) == ProbePart(d, MatchOf(d), B0, P)
  {
    if IsProbeSideSemi(d.joinType) {
      forall p | p in P
        ensures KeptBy(d, CoreOf(d, cross), probeOnly, B)(p) == (Hit(MatchOf(d), B0, p) == (d.joinType == RightSemi))
      {
        ProbeSemiMeans(d, cross, buildOnly, probeOnly, B0, p);
      }
      WhereSame(KeptBy(d, CoreOf(d, cross), probeOnly, B),
                if d.joinType == RightSemi then HitBy(MatchOf(d), B0) else MissedBy(MatchOf(d), B0), P);
    } else if EmitsPairs(d.joinType) {
      forall j, i | 0 <= j < |B| && 0 <= i < |P|
        ensures CoreOf(d, cross)(B[j], P[i]) == MatchOf(d)(B[j], P[i])
      {
        MatchSplits(d, cross, buildOnly, probeOnly, B[j], P[i]);
      }
      ProbePartAgrees(d, CoreOf(d, cross), MatchOf(d), B, P);
    }
  }

  // ------------------------------------------------------------ deriving an answer from pairs

  // Right and Full: the pairs, then the probe rows no surviving pair names, padded.
  lemma PairsPlusPads(d: Desc, m: Relation, B: Table, P: Table, pl: seq<(nat, nat)>, hit: seq<bool>)
    requires IsPairList(pl, m, B, P) && hit == SetTrue(Bools(|P|, false), ProbeIndices(pl))
    ensures multiset(Map(Gathered(B, P), pl) + Map(PadBuild(d), Masked(P, Negated(hit)))) ==
            multiset(Pairs(m, B, P) + Map(PadBuild(d), Where(MissedBy(m, B), P)))
  {
    PairListRows(pl, m, B, P);
    PairListBits(pl, m, B, P);
    MaskedIsWhere(MissedBy(m, B), P, Negated(hit));
  }

  // The probe rows kept by a hit bit that says which rows some core pair names.
  lemma KeptRows(d: Desc, m: Relation, probeOnly: seq<Expr>, B: Table, P: Table, hit: seq<bool>, mask: seq<bool>)
    requires |hit| == |P| && forall i :: 0 <= i < |P| ==> hit[i] == Hit(m, B, P[i])
    requires |mask| == |P|
    requires forall i :: 0 <= i < |P| ==>
               mask[i] == ((hit[i] && ProbeTest(d, probeOnly)(P[i])) == (d.joinType == RightSemi))
    ensures Masked(P, mask) == Where(KeptBy(d, m, probeOnly, B), P)
  {
    MaskedIsWhere(KeptBy(d, m, probeOnly, B), P, mask);
  }

  // ------------------------------------------------------------ keys, condition tables

  function BuildKeys(d: Desc, B: Table): (k: Table)
    ensures |k| == |B| && forall j :: 0 <= j < |B| ==> k[j] == BuildKey(d, B[j])
  {
    seq(|B|, j requires 0 <= j < |B| => BuildKey(d, B[j]))
  }

  function ProbeKeys(d: Desc, P: Table): (k: Table)
    ensures |k| == |P| && forall i :: 0 <= i < |P| ==> k[i] == ProbeKey(d, P[i])
  {
    seq(|P|, i requires 0 <= i < |P| => ProbeKey(d, P[i]))
  }

  // The key columns stand for the rows.
  lemma KeyPairs(d: Desc, B: Table, P: Table, pl: seq<(nat, nat)>)
    requires IsPairList(pl, KeyRelation(d.nullEqualsNull), BuildKeys(d, B), ProbeKeys(d, P))
    ensures IsPairList(pl, KeysOf(d), B, P)
  {
  }

  function EvalOn(d: Desc, cs: seq<Expr>, which: Side, T: Table): (r: seq<bool>)
    ensures |r| == |T| && forall i :: 0 <= i < |T| ==> r[i] == TrueOn(d.meaning, cs, d.columns, which, T[i])
  {
    seq(|T|, i requires 0 <= i < |T| => TrueOn(d.meaning, cs, d.columns, which, T[i]))
  }

  function CondTable(d: Desc, which: Side, hoisted: seq<Expr>, T: Table): (c: Table)
    ensures |c| == |T|
    ensures forall i :: 0 <= i < |T| ==> c[i] == CondRow(d.meaning, d.columns, which, hoisted, T[i])
  {
    seq(|T|, i requires 0 <= i < |T| => CondRow(d.meaning, d.columns, which, hoisted, T[i]))
  }

  predicate Shaped(T: Table, width: nat) {
    forall r :: r in T ==> |r| == width
  }

  // The candidates an AST makes over the condition tables: the pairs its conjuncts are true on.
  function TakenOf(d: Desc, taken: seq<Expr>): Relation {
    (b, p) => AllTrue(d.meaning, taken, PairRow(d.columns, b, p))
  }

  lemma AstAgrees(d: Desc, s: Split, taken: seq<Expr>, cross: seq<Expr>, flip: bool, B: Table, P: Table, j: nat, i: nat)
    requires SplitOk(s, taken, cross, d.columns) && s.asts != []
    requires MapFits(d.columns, d.buildWidth, d.probeWidth) && Shaped(B, d.buildWidth) && Shaped(P, d.probeWidth)
    requires forall c :: c in s.asts && c.Plain? ==> InRange(c.expr, Oriented(flip, d.columns))
    requires j < |B| && i < |P|
    ensures var bc, pc := CondTable(d, Build, s.hoistBuild, B)[j], CondTable(d, Probe, s.hoistProbe, P)[i];
            var ast := CrossAst(s.asts, Oriented(flip, d.columns), flip, d.buildWidth, d.probeWidth);
            IsTrue(EvalAst(d.meaning, ast, if flip then pc else bc, if flip then bc else pc))
              == TakenOf(d, taken)(B[j], P[i])
  {
    assert B[j] in B && P[i] in P;
    CrossAstMeans(d.meaning, s.asts, taken, d.columns, s.hoistBuild, s.hoistProbe, flip, B[j], P[i]);
  }

  // Keyless, nothing left over: the taken conjuncts are the whole core.
  lemma TakenIsCore(d: Desc, s: Split, taken: seq<Expr>, cross: seq<Expr>, b: Row, p: Row)
    requires SplitOk(s, taken, cross, d.columns)
    ensures CoreOf(d, cross)(b, p) <==>
            KeysMatch(d, b, p) && TakenOf(d, taken)(b, p) && AllTrue(d.meaning, s.rest, PairRow(d.columns, b, p))
    ensures d.keys == [] ==> KeysMatch(d, b, p)
  {
  }

  // The AST of the taken conjuncts, for the given call order.
  function AstOf(d: Desc, s: Split, flip: bool): Ast
    requires s.asts != []
    requires forall c :: c in s.asts && c.Plain? ==> InRange(c.expr, Oriented(flip, d.columns))
  {
    CrossAst(s.asts, Oriented(flip, d.columns), flip, d.buildWidth, d.probeWidth)
  }

  ghost predicate AstUsable(d: Desc, s: Split, taken: seq<Expr>, cross: seq<Expr>, B: Table, P: Table) {
    && SplitOk(s, taken, cross, d.columns) && s.asts != []
    && MapFits(d.columns, d.buildWidth, d.probeWidth) && Shaped(B, d.buildWidth) && Shaped(P, d.probeWidth)
    && forall flip: bool, c :: c in s.asts && c.Plain? ==> InRange(c.expr, Oriented(flip, d.columns))
  }

  lemma AstIsUsable(d: Desc, s: Split, taken: seq<Expr>, cross: seq<Expr>, B: Table, P: Table)
    requires SplitOk(s, taken, cross, d.columns) && s.asts != []
    requires MapFits(d.columns, d.buildWidth, d.probeWidth) && Shaped(B, d.buildWidth) && Shaped(P, d.probeWidth)
    ensures AstUsable(d, s, taken, cross, B, P)
  {
    AstInRange(s.asts, taken, d.columns, s.hoistBuild, s.hoistProbe, true);
    AstInRange(s.asts, taken, d.columns, s.hoistBuild, s.hoistProbe, false);
  }

  // Index by index, the predicate over the condition tables is the taken conjuncts on the rows.
  lemma AstAgreesAll(d: Desc, s: Split, taken: seq<Expr>, cross: seq<Expr>, B: Table, P: Table)
    requires AstUsable(d, s, taken, cross, B, P)
    ensures var Bc, Pc := CondTable(d, Build, s.hoistBuild, B), CondTable(d, Probe, s.hoistProbe, P);
            forall j, i :: 0 <= j < |B| && 0 <= i < |P| ==>
              && AstRelation(d.meaning, AstOf(d, s, false))(Bc[j], Pc[i]) == TakenOf(d, taken)(B[j], P[i])
              && SwappedAstRelation(d.meaning, AstOf(d, s, true))(Bc[j], Pc[i]) == TakenOf(d, taken)(B[j], P[i])
              && AstRelation(d.meaning, AstOf(d, s, true))(Pc[i], Bc[j]) == TakenOf(d, taken)(B[j], P[i])
  {
    var Bc, Pc := CondTable(d, Build, s.hoistBuild, B), CondTable(d, Probe, s.hoistProbe, P);
    forall j, i | 0 <= j < |B| && 0 <= i < |P|
      ensures AstRelation(d.meaning, AstOf(d, s, false))(Bc[j], Pc[i]) == TakenOf(d, taken)(B[j], P[i])
      ensures SwappedAstRelation(d.meaning, AstOf(d, s, true))(Bc[j], Pc[i]) == TakenOf(d, taken)(B[j], P[i])
      ensures AstRelation(d.meaning, AstOf(d, s, true))(Pc[i], Bc[j]) == TakenOf(d, taken)(B[j], P[i])
    {
      AstAgrees(d, s, taken, cross, false, B, P, j, i);
      AstAgrees(d, s, taken, cross, true, B, P, j, i);
    }
  }

  lemma AstPairs(d: Desc, s: Split, taken: seq<Expr>, cross: seq<Expr>, B: Table, P: Table, pl: seq<(nat, nat)>)
    requires AstUsable(d, s, taken, cross, B, P)
    requires IsPairList(pl, AstRelation(d.meaning, AstOf(d, s, false)),
                        CondTable(d, Build, s.hoistBuild, B), CondTable(d, Probe, s.hoistProbe, P))
    ensures IsPairList(pl, TakenOf(d, taken), B, P)
  {
    AstAgreesAll(d, s, taken, cross, B, P);
    PairListTransfers(pl, AstRelation(d.meaning, AstOf(d, s, false)),
                      CondTable(d, Build, s.hoistBuild, B), CondTable(d, Probe, s.hoistProbe, P),
                      TakenOf(d, taken), B, P);
  }

  lemma AstLeftJoin(d: Desc, s: Split, taken: seq<Expr>, cross: seq<Expr>, B: Table, P: Table, es: seq<(nat, int)>)
    requires AstUsable(d, s, taken, cross, B, P)
    requires IsLeftJoinList(es, SwappedAstRelation(d.meaning, AstOf(d, s, true)),
                            CondTable(d, Build, s.hoistBuild, B), CondTable(d, Probe, s.hoistProbe, P))
    ensures IsLeftJoinList(es, TakenOf(d, taken), B, P)
  {
    AstAgreesAll(d, s, taken, cross, B, P);
    LeftJoinListTransfers(es, SwappedAstRelation(d.meaning, AstOf(d, s, true)),
                          CondTable(d, Build, s.hoistBuild, B), CondTable(d, Probe, s.hoistProbe, P),
                          TakenOf(d, taken), B, P);
  }

  // The row-wise matchers, from either side.
  lemma AstRowwise(d: Desc, s: Split, taken: seq<Expr>, cross: seq<Expr>, B: Table, P: Table)
    requires AstUsable(d, s, taken, cross, B, P)
    ensures var Bc, Pc := CondTable(d, Build, s.hoistBuild, B), CondTable(d, Probe, s.hoistProbe, P);
            && (forall j :: 0 <= j < |B| ==>
                  (Met(AstRelation(d.meaning, AstOf(d, s, false)), Pc, Bc[j]) <==> Met(TakenOf(d, taken), P, B[j])))
            && (forall i :: 0 <= i < |P| ==>
                  (Met(AstRelation(d.meaning, AstOf(d, s, true)), Bc, Pc[i]) <==> Hit(TakenOf(d, taken), B, P[i])))
  {
    AstAgreesAll(d, s, taken, cross, B, P);
    hide AstRelation, SwappedAstRelation, TakenOf, AstOf, CondTable;
  }

  // Keys and predicate together, from either side.
  lemma MixedRowwise(d: Desc, s: Split, taken: seq<Expr>, cross: seq<Expr>, B: Table, P: Table)
    requires AstUsable(d, s, taken, cross, B, P) && s.rest == []
    ensures var Bc, Pc := CondTable(d, Build, s.hoistBuild, B), CondTable(d, Probe, s.hoistProbe, P);
            var Bk, Pk := BuildKeys(d, B), ProbeKeys(d, P);
            && (forall j: nat :: j < |B| ==>
                  (MixedMet(d.nullEqualsNull, d.meaning, AstOf(d, s, false), Bk, Pk, Bc, Pc, j) <==>
                    Met(CoreOf(d, cross), P, B[j])))
            && (forall i: nat :: i < |P| ==>
                  (MixedMet(d.nullEqualsNull, d.meaning, AstOf(d, s, true), Pk, Bk, Pc, Bc, i) <==>
                    Hit(CoreOf(d, cross), B, P[i])))
  {
    var Bc, Pc := CondTable(d, Build, s.hoistBuild, B), CondTable(d, Probe, s.hoistProbe, P);
    var Bk, Pk := BuildKeys(d, B), ProbeKeys(d, P);
    AstAgreesAll(d, s, taken, cross, B, P);
    forall j, i | 0 <= j < |B| && 0 <= i < |P|
      ensures CoreOf(d, cross)(B[j], P[i]) <==>
              KeysEqual(d.nullEqualsNull, Bk[j], Pk[i]) && IsTrue(EvalAst(d.meaning, AstOf(d, s, false), Bc[j], Pc[i]))
      ensures CoreOf(d, cross)(B[j], P[i]) <==>
              KeysEqual(d.nullEqualsNull, Pk[i], Bk[j]) && IsTrue(EvalAst(d.meaning, AstOf(d, s, true), Pc[i], Bc[j]))
    {
      TakenIsCore(d, s, taken, cross, B[j], P[i]);
      assert AstRelation(d.meaning, AstOf(d, s, true))(Pc[i], Bc[j]) == TakenOf(d, taken)(B[j], P[i]);
    }
    hide AstRelation, SwappedAstRelation, TakenOf, AstOf, CondTable, CoreOf, KeysEqual, EvalAst, BuildKeys, ProbeKeys;
    forall j: nat | j < |B|
      ensures MixedMet(d.nullEqualsNull, d.meaning, AstOf(d, s, false), Bk, Pk, Bc, Pc, j) <==>
                Met(CoreOf(d, cross), P, B[j])
    {
    }
    forall i: nat | i < |P|
      ensures MixedMet(d.nullEqualsNull, d.meaning, AstOf(d, s, true), Pk, Bk, Pc, Bc, i) <==>
                Hit(CoreOf(d, cross), B, P[i])
    {
    }
  }

  // A build key seen through the distinct keys of the probe batch, and the other way about.
  lemma DistinctMeans(nullEqualsNull: bool, D: Table, K: Table, k: Row)
    requires AreDistinctKeys(D, nullEqualsNull, K)
    ensures Met(KeyRelation(nullEqualsNull), D, k) <==> Met(KeyRelation(nullEqualsNull), K, k)
    ensures Hit(KeyRelation(nullEqualsNull), D, k) <==> Hit(KeyRelation(nullEqualsNull), K, k)
  {
    var m := KeyRelation(nullEqualsNull);
    forall i | 0 <= i < |K| && (m(k, K[i]) || m(K[i], k))
      ensures exists h :: 0 <= h < |D| && D[h] == K[i]
    {
      assert K[i] in K && K[i] in D;
    }
    forall h | 0 <= h < |D|
      ensures exists i :: 0 <= i < |K| && K[i] == D[h]
    {
      assert D[h] in D && D[h] in K;
    }
  }

  // The hash matchers over distinct keys, from either side.
  lemma DistinctRowwise(d: Desc, B: Table, P: Table, D: Table)
    ensures AreDistinctKeys(D, d.nullEqualsNull, ProbeKeys(d, P)) ==>
              forall j :: 0 <= j < |B| ==>
                (Met(KeyRelation(d.nullEqualsNull), D, BuildKeys(d, B)[j]) <==> Met(KeysOf(d), P, B[j]))
    ensures AreDistinctKeys(D, d.nullEqualsNull, BuildKeys(d, B)) ==>
              forall i :: 0 <= i < |P| ==>
                (Hit(KeyRelation(d.nullEqualsNull), D, ProbeKeys(d, P)[i]) <==> Hit(KeysOf(d), B, P[i]))
  {
    var m := KeyRelation(d.nullEqualsNull);
    var Bk, Pk := BuildKeys(d, B), ProbeKeys(d, P);
    assert forall j, i :: 0 <= j < |B| && 0 <= i < |P| ==> m(Bk[j], Pk[i]) == KeysOf(d)(B[j], P[i]);
    if AreDistinctKeys(D, d.nullEqualsNull, Pk) {
      forall j | 0 <= j < |B|
        ensures Met(m, D, Bk[j]) <==> Met(KeysOf(d), P, B[j])
      {
        DistinctMeans(d.nullEqualsNull, D, Pk, Bk[j]);
      }
    }
    if AreDistinctKeys(D, d.nullEqualsNull, Bk) {
      forall i | 0 <= i < |P|
        ensures Hit(m, D, Pk[i]) <==> Hit(KeysOf(d), B, P[i])
      {
        DistinctMeans(d.nullEqualsNull, D, Bk, Pk[i]);
      }
    }
  }

  lemma AgreeOnTables(m: Relation, m': Relation, B: Table, P: Table)
    requires forall b, p :: m(b, p) == m'(b, p)
    ensures Agree(m, m', B, P)
    ensures forall j :: 0 <= j < |B| ==> Met(m, P, B[j]) == Met(m', P, B[j])
    ensures forall i :: 0 <= i < |P| ==> Hit(m, B, P[i]) == Hit(m', B, P[i])
  {
  }

  lemma PairListAgrees(pl: seq<(nat, nat)>, m: Relation, m': Relation, B: Table, P: Table)
    requires IsPairList(pl, m, B, P) && Agree(m, m', B, P)
    ensures IsPairList(pl, m', B, P)
  {
  }

  lemma LeftJoinListAgrees(es: seq<(nat, int)>, m: Relation, m': Relation, B: Table, P: Table)
    requires IsLeftJoinList(es, m, B, P) && Agree(m, m', B, P)
    ensures IsLeftJoinList(es, m', B, P)
  {
  }

  lemma UsableAst(d: Desc, s: Split, taken: seq<Expr>, cross: seq<Expr>, B: Table, P: Table)
    requires AstUsable(d, s, taken, cross, B, P)
    ensures s.asts != [] && forall flip: bool, c :: c in s.asts && c.Plain? ==>
              InRange(c.expr, Oriented(flip, d.columns))
  {
  }
}
