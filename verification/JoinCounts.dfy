/**
  What the declarative join answers, counted: how often a row occurs, in terms of the pairs that
  match and of the rows that match nothing. The nine types are told apart here by quantifiers over
  `Matches` alone, and `Matches` by the columns it compares.
 */
module JoinCounts {
  import opened Basics
  import opened Tables
  import opened JoinResidual
  import opened JoinSpec
  import opened Cudf

  // ------------------------------------------------------------ what a match is

  // The filter's row for a pair, cell by cell.
  ghost predicate IsPairRow(columns: FilterMap, b: Row, p: Row, row: Row) {
    && |row| == |columns|
    && forall k :: 0 <= k < |columns| ==>
         (columns[k].side.Build? ==> row[k] == Cell(b, columns[k].index)) &&
         (columns[k].side.Probe? ==> row[k] == Cell(p, columns[k].index))
  }

  lemma KeysMatchMeans(d: Desc, b: Row, p: Row)
    ensures KeysMatch(d, b, p) <==>
            forall k :: 0 <= k < |d.keys| ==>
              && Cell(b, d.keys[k].0) == Cell(p, d.keys[k].1)
              && (d.nullEqualsNull || Cell(b, d.keys[k].0) != Null)
  {
    var x, y := BuildKey(d, b), ProbeKey(d, p);
    assert forall k :: 0 <= k < |d.keys| ==> x[k] == Cell(b, d.keys[k].0) && y[k] == Cell(p, d.keys[k].1);
    if KeysMatch(d, b, p) {
      forall k | 0 <= k < |d.keys|
        ensures Cell(b, d.keys[k].0) == Cell(p, d.keys[k].1)
        ensures d.nullEqualsNull || Cell(b, d.keys[k].0) != Null
      {
        assert x[k] in x;
      }
    }
  }

  // Every key column of one side equals its partner, no NULL among them unless the plan lets NULLs
  // meet, and the condition is true of the pair.
  lemma MatchesMeans(d: Desc, b: Row, p: Row, row: Row)
    requires IsPairRow(d.columns, b, p, row)
    ensures Matches(d, b, p) <==>
            && (forall k :: 0 <= k < |d.keys| ==>
                 && Cell(b, d.keys[k].0) == Cell(p, d.keys[k].1)
                 && (d.nullEqualsNull || Cell(b, d.keys[k].0) != Null))
            && (d.filter.Some? ==> Eval(d.meaning, d.filter.value, row) == Bool(true))
  {
    assert row == PairRow(d.columns, b, p);
    KeysMatchMeans(d, b, p);
  }

  // ------------------------------------------------------------ counts

  ghost predicate HasMatchInProbe(d: Desc, b: Row, P: Table) {
    exists i :: 0 <= i < |P| && Matches(d, b, P[i])
  }

  ghost predicate HasMatchInBuild(d: Desc, B: Table, p: Row) {
    exists j :: 0 <= j < |B| && Matches(d, B[j], p)
  }

  // `b` with so many NULLs after it.
  predicate NullsAfter(x: Row, b: Row, width: nat) {
    |x| == |b| + width && x[..|b|] == b && forall k :: |b| <= k < |x| ==> x[k] == Null
  }

  // `p` with so many NULLs before it.
  predicate NullsBefore(x: Row, width: nat, p: Row) {
    |x| == width + |p| && x[width..] == p && forall k :: 0 <= k < width ==> x[k] == Null
  }

  // How many matching pairs read `x` side by side.
  ghost function PairCount(d: Desc, B: Table, P: Table, x: Row): nat {
    |set j: nat, i: nat | j < |B| && i < |P| && Matches(d, B[j], P[i]) && x == B[j] + P[i] :: (j, i)|
  }

  // How many build rows without a match read `x` when padded.
  ghost function LoneBuildCount(d: Desc, B: Table, P: Table, x: Row): nat {
    |set j: nat | j < |B| && !HasMatchInProbe(d, B[j], P) && NullsAfter(x, B[j], d.probeWidth)|
  }

  // How many probe rows without a match read `x` when padded.
  ghost function LoneProbeCount(d: Desc, B: Table, P: Table, x: Row): nat {
    |set i: nat | i < |P| && !HasMatchInBuild(d, B, P[i]) && NullsBefore(x, d.buildWidth, P[i])|
  }

  // How many build rows read `x` with a last cell that says whether they have a match.
  ghost function MarkCount(d: Desc, B: Table, P: Table, x: Row): nat {
    |set j: nat | j < |B| && x == B[j] + [Bool(HasMatchInProbe(d, B[j], P))]|
  }

  // How often the probe rows' part of the answer, before projection, holds a row.
  ghost function CountByProbe(d: Desc, B: Table, P: Table, x: Row): nat {
    match d.joinType
    case Inner | Left => PairCount(d, B, P, x)
    case Right | Full => PairCount(d, B, P, x) + LoneProbeCount(d, B, P, x)
    case RightSemi => if HasMatchInBuild(d, B, x) then multiset(P)[x] else 0
    case RightAnti => if HasMatchInBuild(d, B, x) then 0 else multiset(P)[x]
    case LeftSemi | LeftAnti | LeftMark => 0
  }

  // How often the build rows' part does.
  ghost function CountAtFinish(d: Desc, B: Table, P: Table, x: Row): nat {
    match d.joinType
    case Left | Full => LoneBuildCount(d, B, P, x)
    case LeftSemi => if HasMatchInProbe(d, x, P) then multiset(B)[x] else 0
    case LeftAnti => if HasMatchInProbe(d, x, P) then 0 else multiset(B)[x]
    case LeftMark => MarkCount(d, B, P, x)
    case Inner | Right | RightSemi | RightAnti => 0
  }

  /** How often the whole answer, before projection, holds a row. */
  ghost function RowCount(d: Desc, B: Table, P: Table, x: Row): nat {
    match d.joinType
    case Inner => PairCount(d, B, P, x)
    case Left => PairCount(d, B, P, x) + LoneBuildCount(d, B, P, x)
    case Right => PairCount(d, B, P, x) + LoneProbeCount(d, B, P, x)
    case Full => PairCount(d, B, P, x) + LoneBuildCount(d, B, P, x) + LoneProbeCount(d, B, P, x)
    case LeftSemi => if exists i :: 0 <= i < |P| && Matches(d, x, P[i]) then multiset(B)[x] else 0
    case LeftAnti => if exists i :: 0 <= i < |P| && Matches(d, x, P[i]) then 0 else multiset(B)[x]
    case LeftMark => MarkCount(d, B, P, x)
    case RightSemi => if exists j :: 0 <= j < |B| && Matches(d, B[j], x) then multiset(P)[x] else 0
    case RightAnti => if exists j :: 0 <= j < |B| && Matches(d, B[j], x) then 0 else multiset(P)[x]
  }

  lemma CountsAddUp(d: Desc, B: Table, P: Table, x: Row)
    ensures RowCount(d, B, P, x) == CountByProbe(d, B, P, x) + CountAtFinish(d, B, P, x)
  {
    hide PairCount, LoneBuildCount, LoneProbeCount, MarkCount, Matches;
  }

  // Rows that are answered are as wide as the plan's answers.
  lemma RowsAreWide(d: Desc, B: Table, P: Table, x: Row)
    requires forall b :: b in B ==> |b| == d.buildWidth
    requires forall p :: p in P ==> |p| == d.probeWidth
    requires RowCount(d, B, P, x) > 0
    ensures |x| == EmittedWidth(d)
  {
    hide Matches, PairCount, LoneBuildCount, LoneProbeCount, MarkCount;
    assert multiset(B)[x] > 0 ==> x in B;
    assert multiset(P)[x] > 0 ==> x in P;
    PairIsWide(d, B, P, x);
    LoneIsWide(d, B, P, x);
  }

  lemma PairIsWide(d: Desc, B: Table, P: Table, x: Row)
    requires forall b :: b in B ==> |b| == d.buildWidth
    requires forall p :: p in P ==> |p| == d.probeWidth
    ensures PairCount(d, B, P, x) > 0 ==> |x| == d.buildWidth + d.probeWidth
  {
    hide Matches;
    if PairCount(d, B, P, x) > 0 {
      var j: nat, i: nat :| j < |B| && i < |P| && Matches(d, B[j], P[i]) && x == B[j] + P[i];
    }
  }

  lemma LoneIsWide(d: Desc, B: Table, P: Table, x: Row)
    requires forall b :: b in B ==> |b| == d.buildWidth
    requires forall p :: p in P ==> |p| == d.probeWidth
    ensures LoneBuildCount(d, B, P, x) > 0 ==> |x| == d.buildWidth + d.probeWidth
    ensures LoneProbeCount(d, B, P, x) > 0 ==> |x| == d.buildWidth + d.probeWidth
    ensures MarkCount(d, B, P, x) > 0 ==> |x| == d.buildWidth + 1
  {
    hide HasMatchInProbe, HasMatchInBuild;
    if LoneBuildCount(d, B, P, x) > 0 {
      var j: nat :| j < |B| && !HasMatchInProbe(d, B[j], P) && NullsAfter(x, B[j], d.probeWidth);
    }
    if LoneProbeCount(d, B, P, x) > 0 {
      var i: nat :| i < |P| && !HasMatchInBuild(d, B, P[i]) && NullsBefore(x, d.buildWidth, P[i]);
    }
    if MarkCount(d, B, P, x) > 0 {
      var j: nat :| j < |B| && x == B[j] + [Bool(HasMatchInProbe(d, B[j], P))];
    }
  }

  // A projected row: the named cells of the row it comes from, or that row.
  ghost predicate IsProjected(d: Desc, from: Row, row: Row) {
    match d.projection
    case None => row == from
    case Some(outputs) => |row| == |outputs| && forall k :: 0 <= k < |outputs| ==> row[k] == Cell(from, outputs[k])
  }

  // `rows` are the projections of `full`, one by one.
  ghost predicate AreProjected(d: Desc, full: Table, rows: Table) {
    |rows| == |full| && forall i :: 0 <= i < |rows| ==> IsProjected(d, full[i], rows[i])
  }

  // ------------------------------------------------------------ counting lists

  // A list without repetition maps to `y` as often as it has members that do.
  lemma {:induction false} CountedOnce<T(!new), U>(f: T -> U, xs: seq<T>, y: U, found: set<T>)
    requires NoDup(xs) && forall x :: x in found <==> x in xs && f(x) == y
    ensures multiset(Map(f, xs))[y] == |found|
    decreases |xs|
  {
    if xs == [] {
      assert found == {};
    } else {
      var init, last := xs[..|xs| - 1], xs[|xs| - 1];
      assert xs == init + [last] && last !in init;
      CountedOnce(f, init, y, found - {last});
      OneMoreMapped(f, init, last, y);
    }
  }

  lemma OneMoreMapped<T, U>(f: T -> U, init: seq<T>, last: T, y: U)
    ensures multiset(Map(f, init + [last]))[y] == multiset(Map(f, init))[y] + if f(last) == y then 1 else 0
  {
    assert Map(f, init + [last]) == Map(f, init) + [f(last)];
  }

  lemma PairsCount(d: Desc, B: Table, P: Table, x: Row)
    ensures multiset(Pairs(MatchOf(d), B, P))[x] == PairCount(d, B, P, x)
  {
    var m := MatchOf(d);
    CanonIs(m, B, P, |P|);
    assert P[..|P|] == P;
    var pl := Canon(m, B, P);
    var found := set j: nat, i: nat | j < |B| && i < |P| && Matches(d, B[j], P[i]) && x == B[j] + P[i] :: (j, i);
    hide Canon, Matches, Pairs;
    forall at: (nat, nat)
      ensures at in found <==> at in pl && Gathered(B, P)(at) == x
    {
      assert at == (at.0, at.1);
    }
    CountedOnce(Gathered(B, P), pl, x, found);
  }

  function PadRightOf(d: Desc, B: Table): nat -> Row {
    (j: nat) => CellRow(B, j) + NullRow(d.probeWidth)
  }

  lemma PadRightIs(d: Desc, b: Row, x: Row)
    ensures b + NullRow(d.probeWidth) == x <==> NullsAfter(x, b, d.probeWidth)
  {
    if NullsAfter(x, b, d.probeWidth) {
      assert x[|b|..] == NullRow(d.probeWidth);
      assert x == x[..|b|] + x[|b|..];
    }
  }

  lemma PadLeftIs(d: Desc, p: Row, x: Row)
    ensures NullRow(d.buildWidth) + p == x <==> NullsBefore(x, d.buildWidth, p)
  {
    if NullsBefore(x, d.buildWidth, p) {
      assert x[..d.buildWidth] == NullRow(d.buildWidth);
      assert x == x[..d.buildWidth] + x[d.buildWidth..];
    }
  }

  // The kept rows by their positions.
  lemma KeptPositions(keep: Row -> bool, B: Table) returns (ix: seq<nat>)
    ensures NoDup(ix) && Map(RowOf(B), ix) == Where(keep, B)
    ensures forall j: nat :: j in ix <==> j < |B| && keep(B[j])
  {
    CanonIndicesAre(keep, B, |B|);
    assert B[..|B|] == B;
    ix := CanonIndices(keep, B);
  }

  lemma MapTwice<T, U, V>(f: T -> U, g: U -> V, h: T -> V, xs: seq<T>)
    requires forall x :: h(x) == g(f(x))
    ensures Map(g, Map(f, xs)) == Map(h, xs)
  {
  }

  lemma LoneBuildRows(d: Desc, B: Table, P: Table, x: Row)
    ensures multiset(Map(PadProbe(d), Where(UnmetBy(MatchOf(d), P), B)))[x] == LoneBuildCount(d, B, P, x)
  {
    var ix := KeptPositions(UnmetBy(MatchOf(d), P), B);
    MapTwice(RowOf(B), PadProbe(d), PadRightOf(d, B), ix);
    var found := set j: nat | j < |B| && !HasMatchInProbe(d, B[j], P) && NullsAfter(x, B[j], d.probeWidth);
    hide Where, Matches, NullsAfter, NullRow;
    forall j: nat
      ensures j in found <==> j in ix && PadRightOf(d, B)(j) == x
    {
      if j < |B| {
        PadRightIs(d, B[j], x);
      }
    }
    CountedOnce(PadRightOf(d, B), ix, x, found);
  }

  lemma LoneProbeRows(d: Desc, B: Table, P: Table, x: Row)
    ensures multiset(Map(PadBuild(d), Where(MissedBy(MatchOf(d), B), P)))[x] == LoneProbeCount(d, B, P, x)
  {
    var ix := KeptPositions(MissedBy(MatchOf(d), B), P);
    MapTwice(RowOf(P), PadBuild(d), PadRowOf(d, P), ix);
    var found := set i: nat | i < |P| && !HasMatchInBuild(d, B, P[i]) && NullsBefore(x, d.buildWidth, P[i]);
    hide Where, Matches, NullsBefore, NullRow;
    forall i: nat
      ensures i in found <==> i in ix && PadRowOf(d, P)(i) == x
    {
      if i < |P| {
        PadLeftIs(d, P[i], x);
      }
    }
    CountedOnce(PadRowOf(d, P), ix, x, found);
  }

  ghost function MarkOf(d: Desc, B: Table, P: Table): nat -> Row {
    (j: nat) => CellRow(B, j) + [Bool(HasMatchInProbe(d, CellRow(B, j), P))]
  }

  function Positions(n: nat): (ix: seq<nat>)
    ensures |ix| == n && forall j :: 0 <= j < n ==> ix[j] == j
  {
    seq(n, j requires 0 <= j < n => j)
  }

  lemma MarkedRows(d: Desc, B: Table, P: Table, x: Row)
    ensures multiset(Map(Marked(MatchOf(d), P), B))[x] == MarkCount(d, B, P, x)
  {
    var ix := Positions(|B|);
    forall j: nat
      ensures j in ix <==> j < |B|
    {
      assert j < |B| ==> ix[j] == j;
    }
    forall j | 0 <= j < |B|
      ensures MarkOf(d, B, P)(ix[j]) == Marked(MatchOf(d), P)(B[j])
    {
      MarkIs(d, P, B[j]);
    }
    assert Map(Marked(MatchOf(d), P), B) == Map(MarkOf(d, B, P), ix);
    var found := set j: nat | j < |B| && x == B[j] + [Bool(HasMatchInProbe(d, B[j], P))];
    hide Matches;
    forall j: nat
      ensures j in found <==> j in ix && MarkOf(d, B, P)(j) == x
    {
    }
    CountedOnce(MarkOf(d, B, P), ix, x, found);
  }

  lemma MarkIs(d: Desc, P: Table, b: Row)
    ensures Marked(MatchOf(d), P)(b) == b + [Bool(HasMatchInProbe(d, b, P))]
  {
  }

  // ------------------------------------------------------------ the parts

  lemma ProbePartCount(d: Desc, B: Table, P: Table, x: Row)
    ensures multiset(ProbePart(d, MatchOf(d), B, P))[x] == CountByProbe(d, B, P, x)
  {
    hide PairCount, LoneProbeCount, Pairs, Where;
    PairsCount(d, B, P, x);
    LoneProbeRows(d, B, P, x);
    WhereCount(HitBy(MatchOf(d), B), P, x);
    WhereCount(MissedBy(MatchOf(d), B), P, x);
    assert HitBy(MatchOf(d), B)(x) == HasMatchInBuild(d, B, x);
  }

  lemma BuildPartCount(d: Desc, B: Table, P: Table, x: Row)
    ensures multiset(BuildPart(d, MatchOf(d), B, P))[x] == CountAtFinish(d, B, P, x)
  {
    hide LoneBuildCount, MarkCount, Where;
    LoneBuildRows(d, B, P, x);
    MarkedRows(d, B, P, x);
    WhereCount(MetBy(MatchOf(d), P), B, x);
    WhereCount(UnmetBy(MatchOf(d), P), B, x);
    assert MetBy(MatchOf(d), P)(x) == HasMatchInProbe(d, x, P);
  }

  lemma ProjectIs(d: Desc, from: Row)
    ensures IsProjected(d, from, Project(d)(from))
  {
  }

  // ------------------------------------------------------------ what is answered

  // `rows` are projections of rows that occur as often as the probe rows' part says.
  ghost predicate AnswersByProbe(d: Desc, B: Table, P: Table, rows: Table) {
    exists full :: AreProjected(d, full, rows) && forall x :: multiset(full)[x] == CountByProbe(d, B, P, x)
  }

  ghost predicate AnswersAtFinish(d: Desc, B: Table, P: Table, rows: Table) {
    exists full :: AreProjected(d, full, rows) && forall x :: multiset(full)[x] == CountAtFinish(d, B, P, x)
  }

  // Both parts together.
  ghost predicate AnswersJoin(d: Desc, B: Table, P: Table, rows: Table) {
    exists full :: AreProjected(d, full, rows) && CountsJoin(d, B, P, full)
  }

  ghost predicate CountsJoin(d: Desc, B: Table, P: Table, full: Table) {
    forall x :: multiset(full)[x] == RowCount(d, B, P, x)
  }

  // Rows that hold what projecting some list gives come from a reordering of that list.
  lemma Unprojected(d: Desc, part: Table, rows: Table) returns (full: Table)
    requires multiset(rows) == multiset(Map(Project(d), part))
    ensures AreProjected(d, full, rows) && multiset(full) == multiset(part)
  {
    full := Unmapped(Project(d), part, rows);
    hide Project, IsProjected;
    forall i | 0 <= i < |rows|
      ensures IsProjected(d, full[i], rows[i])
    {
      ProjectIs(d, full[i]);
    }
  }

  lemma ProbeAnswer(d: Desc, B: Table, P: Table, rows: Table)
    requires multiset(rows) == multiset(Map(Project(d), ProbePart(d, MatchOf(d), B, P)))
    ensures AnswersByProbe(d, B, P, rows)
  {
    var full := Unprojected(d, ProbePart(d, MatchOf(d), B, P), rows);
    hide ProbePart, BuildPart, CountByProbe, CountAtFinish, RowCount, Project, AreProjected, Map, MatchOf;
    forall x
      ensures multiset(full)[x] == CountByProbe(d, B, P, x)
    {
      ProbePartCount(d, B, P, x);
    }
  }

  lemma FinishAnswer(d: Desc, B: Table, P: Table, rows: Table)
    requires multiset(rows) == multiset(Map(Project(d), BuildPart(d, MatchOf(d), B, P)))
    ensures AnswersAtFinish(d, B, P, rows)
  {
    var full := Unprojected(d, BuildPart(d, MatchOf(d), B, P), rows);
    hide ProbePart, BuildPart, CountByProbe, CountAtFinish, RowCount, Project, AreProjected, Map, MatchOf;
    forall x
      ensures multiset(full)[x] == CountAtFinish(d, B, P, x)
    {
      BuildPartCount(d, B, P, x);
    }
  }

  lemma JoinAnswer(d: Desc, B: Table, P: Table, rows: Table) returns (full: Table)
    requires multiset(rows) == multiset(Join(d, B, P))
    ensures AreProjected(d, full, rows) && CountsJoin(d, B, P, full)
    ensures AnswersJoin(d, B, P, rows)
  {
    full := Unprojected(d, ProbePart(d, MatchOf(d), B, P) + BuildPart(d, MatchOf(d), B, P), rows);
    hide ProbePart, BuildPart, CountByProbe, CountAtFinish, RowCount, Project, AreProjected, Map, MatchOf;
    forall x
      ensures multiset(full)[x] == RowCount(d, B, P, x)
    {
      CountsAddUp(d, B, P, x);
      ProbePartCount(d, B, P, x);
      BuildPartCount(d, B, P, x);
    }
  }
}
