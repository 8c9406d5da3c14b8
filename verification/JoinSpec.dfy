/**
  The declarative join: what each of the nine join types answers over whole inputs, as lists of
  rows read as multisets. It knows nothing of batches, hash tables, chunks or condition tables.
 */
module JoinSpec {
  import opened Basics
  import opened Tables
  import opened JoinResidual

  type Table = seq<Row>

  datatype JoinType = Inner | Left | Right | Full | LeftSemi | LeftAnti | LeftMark | RightSemi | RightAnti

  predicate IsBuildSideSemi(t: JoinType) {
    t == LeftSemi || t == LeftAnti || t == LeftMark
  }

  predicate IsProbeSideSemi(t: JoinType) {
    t == RightSemi || t == RightAnti
  }

  predicate EmitsPairs(t: JoinType) {
    t == Inner || t == Left || t == Right || t == Full
  }

  // The plan's join. `meaning`, `astAble` and `comparable` stand for the expression engine: what
  // a node computes, and which conditions the device takes.
  datatype Desc = Desc(
    joinType: JoinType,
    keys: seq<(nat, nat)>,
    nullEqualsNull: bool,
    filter: Option<Expr>,
    columns: FilterMap,
    projection: Option<seq<nat>>,
    chunkBytes: nat,
    rowBytes: nat,          // what one pair of the filter's columns is priced at
    buildWidth: nat,
    probeWidth: nat,
    meaning: Meaning,
    astAble: Expr -> bool,
    comparable: Expr -> bool)

  // ------------------------------------------------------------ when a pair matches

  function BuildKey(d: Desc, b: Row): (k: Row)
    ensures |k| == |d.keys|
  {
    seq(|d.keys|, i requires 0 <= i < |d.keys| => Cell(b, d.keys[i].0))
  }

  function ProbeKey(d: Desc, p: Row): (k: Row)
    ensures |k| == |d.keys|
  {
    seq(|d.keys|, i requires 0 <= i < |d.keys| => Cell(p, d.keys[i].1))
  }

  // SQL equality of key rows, or equality with NULL equal to NULL where the plan says so.
  predicate KeysEqual(nullEqualsNull: bool, a: Row, b: Row) {
    a == b && (nullEqualsNull || Null !in a)
  }

  predicate KeysMatch(d: Desc, b: Row, p: Row) {
    KeysEqual(d.nullEqualsNull, BuildKey(d, b), ProbeKey(d, p))
  }

  // The keys are equal and the whole condition IS TRUE.
  predicate Matches(d: Desc, b: Row, p: Row) {
    && KeysMatch(d, b, p)
    && (d.filter.Some? ==> IsTrue(Eval(d.meaning, d.filter.value, PairRow(d.columns, b, p))))
  }

  type Relation = (Row, Row) -> bool

  function MatchOf(d: Desc): Relation {
    (b, p) => Matches(d, b, p)
  }

  // ------------------------------------------------------------ the parts of an answer

  function RowsWith(m: Relation, B: Table, p: Row): Table {
    if B == [] then []
    else
      var n := |B| - 1;
      RowsWith(m, B[..n], p) + if m(B[n], p) then [B[n] + p] else []
  }

  // Every matching pair, side by side.
  function Pairs(m: Relation, B: Table, P: Table): Table {
    if P == [] then []
    else
      var n := |P| - 1;
      Pairs(m, B, P[..n]) + RowsWith(m, B, P[n])
  }

  predicate Hit(m: Relation, B: Table, p: Row) {
    exists j :: 0 <= j < |B| && m(B[j], p)
  }

  predicate Met(m: Relation, P: Table, b: Row) {
    exists i :: 0 <= i < |P| && m(b, P[i])
  }

  function HitBy(m: Relation, B: Table): Row -> bool { p => Hit(m, B, p) }

  function MissedBy(m: Relation, B: Table): Row -> bool { p => !Hit(m, B, p) }

  function MetBy(m: Relation, P: Table): Row -> bool { b => Met(m, P, b) }

  function UnmetBy(m: Relation, P: Table): Row -> bool { b => !Met(m, P, b) }

  function NullRow(width: nat): (r: Row)
    ensures |r| == width
  {
    seq(width, _ => Null)
  }

  function PadBuild(d: Desc): Row -> Row { p => NullRow(d.buildWidth) + p }

  function PadProbe(d: Desc): Row -> Row { b => b + NullRow(d.probeWidth) }

  function Marked(m: Relation, P: Table): Row -> Row { b => b + [Bool(Met(m, P, b))] }

  // What the probe rows decide on their own.
  function ProbePart(d: Desc, m: Relation, B: Table, P: Table): Table {
    match d.joinType
    case Inner => Pairs(m, B, P)
    case Left => Pairs(m, B, P)
    case Right => Pairs(m, B, P) + Map(PadBuild(d), Where(MissedBy(m, B), P))
    case Full => Pairs(m, B, P) + Map(PadBuild(d), Where(MissedBy(m, B), P))
    case RightSemi => Where(HitBy(m, B), P)
    case RightAnti => Where(MissedBy(m, B), P)
    case _ => []
  }

  // What each build row's fate over all the probe rows decides.
  function BuildPart(d: Desc, m: Relation, B: Table, P: Table): Table {
    match d.joinType
    case Left => Map(PadProbe(d), Where(UnmetBy(m, P), B))
    case Full => Map(PadProbe(d), Where(UnmetBy(m, P), B))
    case LeftSemi => Where(MetBy(m, P), B)
    case LeftAnti => Where(UnmetBy(m, P), B)
    case LeftMark => Map(Marked(m, P), B)
    case _ => []
  }

  // How many columns a join has to project: both sides for the types that pair rows, else one side,
  // with the mark where there is one.
  function EmittedWidth(d: Desc): nat {
    if EmitsPairs(d.joinType) then d.buildWidth + d.probeWidth
    else if d.joinType.LeftMark? then d.buildWidth + 1
    else if IsBuildSideSemi(d.joinType) then d.buildWidth
    else d.probeWidth
  }

  predicate ProjectionOk(d: Desc) {
    d.projection.Some? ==> forall o :: o in d.projection.value ==> o < EmittedWidth(d)
  }

  function Project(d: Desc): Row -> Row {
    row => if d.projection.None? then row
           else seq(|d.projection.value|, i requires 0 <= i < |d.projection.value| => Cell(row, d.projection.value[i]))
  }

  /** The declarative join of two whole tables. */
  function Join(d: Desc, B: Table, P: Table): Table {
    Map(Project(d), ProbePart(d, MatchOf(d), B, P) + BuildPart(d, MatchOf(d), B, P))
  }

  // ------------------------------------------------------------ streaming

  lemma {:induction false} PairsThen(m: Relation, B: Table, P: Table, Q: Table)
    ensures Pairs(m, B, P + Q) == Pairs(m, B, P) + Pairs(m, B, Q)
    decreases |Q|
  {
    if Q == [] {
      assert P + Q == P;
    } else {
      hide RowsWith;
      var n := |Q| - 1;
      PairsThen(m, B, P, Q[..n]);
      var all := P + Q;
      assert all[..|all| - 1] == P + Q[..n];
      assert Pairs(m, B, all) == Pairs(m, B, P + Q[..n]) + RowsWith(m, B, Q[n]);
    }
  }

  // The probe part of a concatenation is the probe parts together: batches and chunks alike.
  lemma ProbePartThen(d: Desc, m: Relation, B: Table, P: Table, Q: Table)
    ensures multiset(ProbePart(d, m, B, P + Q)) == multiset(ProbePart(d, m, B, P)) + multiset(ProbePart(d, m, B, Q))
  {
    hide Pairs, Where, HitBy, MissedBy, PadBuild, Map;
    PairsThen(m, B, P, Q);
    WhereThen(HitBy(m, B), P, Q);
    WhereThen(MissedBy(m, B), P, Q);
    MapThen(PadBuild(d), Where(MissedBy(m, B), P), Where(MissedBy(m, B), Q));
  }

  lemma {:induction false} RowsWithNone(m: Relation, B: Table, p: Row)
    requires !Hit(m, B, p)
    ensures RowsWith(m, B, p) == []
    decreases |B|
  {
    if B != [] {
      RowsWithNone(m, B[..|B| - 1], p);
    }
  }

  lemma {:induction false} NoPairs(m: Relation, B: Table, P: Table)
    requires forall p :: p in P ==> !Hit(m, B, p)
    ensures Pairs(m, B, P) == []
    decreases |P|
  {
    if P != [] {
      NoPairs(m, B, P[..|P| - 1]);
      RowsWithNone(m, B, P[|P| - 1]);
    }
  }

  // An anti join is the exact complement of the semi join of its side, whatever the condition
  // makes of NULLs.
  lemma SemiAndAnti(m: Relation, B: Table, P: Table)
    ensures multiset(P) == multiset(Where(HitBy(m, B), P)) + multiset(Where(MissedBy(m, B), P))
    ensures multiset(B) == multiset(Where(MetBy(m, P), B)) + multiset(Where(UnmetBy(m, P), B))
  {
    WhereSplits(HitBy(m, B), MissedBy(m, B), P);
    WhereSplits(MetBy(m, P), UnmetBy(m, P), B);
  }

  // ------------------------------------------------------------ lists of pairs

  // A list of (build, probe) indices: the matching pairs, once each, in any order.
  ghost predicate IsPairList(pl: seq<(nat, nat)>, m: Relation, B: Table, P: Table) {
    && NoDup(pl)
    && forall j: nat, i: nat :: (j, i) in pl <==> j < |B| && i < |P| && m(B[j], P[i])
  }

  function RowAt(B: Table, P: Table, at: (nat, nat)): Row {
    if at.0 < |B| && at.1 < |P| then B[at.0] + P[at.1] else []
  }

  function Gathered(B: Table, P: Table): ((nat, nat)) -> Row {
    at => RowAt(B, P, at)
  }

  function CanonRow(m: Relation, B: Table, p: Row, i: nat): (pl: seq<(nat, nat)>) {
    if B == [] then []
    else CanonRow(m, B[..|B| - 1], p, i) + if m(B[|B| - 1], p) then [(|B| - 1, i)] else []
  }

  function Canon(m: Relation, B: Table, P: Table): (pl: seq<(nat, nat)>) {
    if P == [] then []
    else Canon(m, B, P[..|P| - 1]) + CanonRow(m, B, P[|P| - 1], |P| - 1)
  }

  lemma {:induction false} CanonRowIs(m: Relation, B: Table, P: Table, i: nat, k: nat)
    requires k <= |B| && i < |P|
    ensures var pl := CanonRow(m, B[..k], P[i], i);
            && NoDup(pl)
            && (forall j: nat, h: nat :: (j, h) in pl <==> j < k && h == i && m(B[j], P[i]))
            && Map(Gathered(B, P), pl) == RowsWith(m, B[..k], P[i])
    decreases k
  {
    if k > 0 {
      CanonRowIs(m, B, P, i, k - 1);
      assert B[..k][..k - 1] == B[..k - 1];
      hide NoDup, Gathered;
      var init := CanonRow(m, B[..k - 1], P[i], i);
      if m(B[k - 1], P[i]) {
        var last: (nat, nat) := (k - 1, i);
        OneMore(init, last);
        MapThen(Gathered(B, P), init, [last]);
        GatheredAt(B, P, k - 1, i);
      }
    }
  }

  lemma OneMore<T(!new)>(xs: seq<T>, x: T)
    requires NoDup(xs) && x !in xs
    ensures NoDup(xs + [x])
  {
  }

  lemma GatheredAt(B: Table, P: Table, j: nat, i: nat)
    requires j < |B| && i < |P|
    ensures Map(Gathered(B, P), [(j, i)]) == [B[j] + P[i]]
  {
  }

  lemma {:induction false} CanonIs(m: Relation, B: Table, P: Table, k: nat)
    requires k <= |P|
    ensures var pl := Canon(m, B, P[..k]);
            && NoDup(pl)
            && (forall j: nat, i: nat :: (j, i) in pl <==> j < |B| && i < k && m(B[j], P[i]))
            && Map(Gathered(B, P), pl) == Pairs(m, B, P[..k])
    decreases k
  {
    if k > 0 {
      CanonIs(m, B, P, k - 1);
      assert P[..k][..k - 1] == P[..k - 1];
      CanonRowIs(m, B, P, k - 1, |B|);
      assert B[..|B|] == B;
      var init, last := Canon(m, B, P[..k - 1]), CanonRow(m, B, P[k - 1], k - 1);
      assert Canon(m, B, P[..k]) == init + last;
      NoDupThen(init, last);
      MapThen(Gathered(B, P), init, last);
    }
  }

  lemma NoDupThen<T(!new)>(xs: seq<T>, ys: seq<T>)
    requires NoDup(xs) && NoDup(ys) && forall x :: x in xs ==> x !in ys
    ensures NoDup(xs + ys)
  {
    forall i, j | 0 <= i < |xs| && 0 <= j < |ys|
      ensures xs[i] != ys[j]
    {
      assert xs[i] in xs && ys[j] in ys;
    }
  }

  // Gathering a pair list gives the matching pairs, whatever order the device chose.
  lemma PairListRows(pl: seq<(nat, nat)>, m: Relation, B: Table, P: Table)
    requires IsPairList(pl, m, B, P)
    ensures multiset(Map(Gathered(B, P), pl)) == multiset(Pairs(m, B, P))
  {
    CanonIs(m, B, P, |P|);
    assert P[..|P|] == P;
    forall x: (nat, nat)
      ensures x in pl <==> x in Canon(m, B, P)
    {
      assert x == (x.0, x.1);
    }
    SameElements(pl, Canon(m, B, P));
    MapPermutes(Gathered(B, P), pl, Canon(m, B, P));
  }

  // ------------------------------------------------------------ match bits

  // col OR (row k appears in idx)
  function SetTrue(col: seq<bool>, idx: seq<nat>): (r: seq<bool>)
    ensures |r| == |col|
    ensures forall k :: 0 <= k < |col| ==> r[k] == (col[k] || k in idx)
  {
    seq(|col|, k requires 0 <= k < |col| => col[k] || k in idx)
  }

  function Bools(n: nat, v: bool): (r: seq<bool>)
    ensures |r| == n && forall k :: 0 <= k < n ==> r[k] == v
  {
    seq(n, _ => v)
  }

  function Negated(c: seq<bool>): (r: seq<bool>)
    ensures |r| == |c| && forall k :: 0 <= k < |c| ==> r[k] == !c[k]
  {
    seq(|c|, k requires 0 <= k < |c| => !c[k])
  }

  function BuildIndices(pl: seq<(nat, nat)>): (r: seq<nat>)
    ensures |r| == |pl| && forall k :: 0 <= k < |pl| ==> r[k] == pl[k].0
  {
    seq(|pl|, k requires 0 <= k < |pl| => pl[k].0)
  }

  function ProbeIndices(pl: seq<(nat, nat)>): (r: seq<nat>)
    ensures |r| == |pl| && forall k :: 0 <= k < |pl| ==> r[k] == pl[k].1
  {
    seq(|pl|, k requires 0 <= k < |pl| => pl[k].1)
  }

  // The indices of a pair list say which rows matched.
  lemma PairListBits(pl: seq<(nat, nat)>, m: Relation, B: Table, P: Table)
    requires IsPairList(pl, m, B, P)
    ensures forall j :: 0 <= j < |B| ==> (j in BuildIndices(pl) <==> Met(m, P, B[j]))
    ensures forall i :: 0 <= i < |P| ==> (i in ProbeIndices(pl) <==> Hit(m, B, P[i]))
  {
  }

  // The match bits after a set of probe rows: set where some row met the build row.
  ghost predicate BitsAre(bits: seq<bool>, m: Relation, B: Table, P: Table) {
    |bits| == |B| && forall j :: 0 <= j < |B| ==> (bits[j] <==> Met(m, P, B[j]))
  }

  // Setting the bits of a batch on top of those of the rows before it.
  lemma BitsThen(bits: seq<bool>, idx: seq<nat>, m: Relation, B: Table, P: Table, Q: Table)
    requires BitsAre(bits, m, B, P)
    requires forall j :: 0 <= j < |B| ==> (j in idx <==> Met(m, Q, B[j]))
    ensures BitsAre(SetTrue(bits, idx), m, B, P + Q)
  {
    forall j | 0 <= j < |B|
      ensures Met(m, P + Q, B[j]) <==> Met(m, P, B[j]) || Met(m, Q, B[j])
    {
      if i :| 0 <= i < |P| && m(B[j], P[i]) {
        assert (P + Q)[i] == P[i];
      }
      if i :| 0 <= i < |Q| && m(B[j], Q[i]) {
        assert (P + Q)[|P| + i] == Q[i];
      }
      if i :| 0 <= i < |P + Q| && m(B[j], (P + Q)[i]) {
        assert i < |P| ==> m(B[j], P[i]);
        assert i >= |P| ==> m(B[j], Q[i - |P|]);
      }
    }
  }
}
