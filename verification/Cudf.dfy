/**
  The device library's join calls, by contract. A caller sees only what the library's own
  documentation promises: matching pairs once each in an unspecified order, a value out of range
  for a row with no match, a NULL predicate counting as no match. The bodies are one way to meet
  the contracts; nothing outside this module depends on them.
 */
module Cudf {
  import opened Basics
  import opened Tables
  import opened JoinResidual
  import opened JoinSpec

  function KeyRelation(nullEqualsNull: bool): Relation {
    (a, b) => KeysEqual(nullEqualsNull, a, b)
  }

  // The predicate over (left, right) condition rows IS TRUE.
  function AstRelation(m: Meaning, ast: Ast): Relation {
    (l, r) => IsTrue(EvalAst(m, ast, l, r))
  }

  // The same with the probe passed as the library's left.
  function SwappedAstRelation(m: Meaning, ast: Ast): Relation {
    (b, p) => IsTrue(EvalAst(m, ast, p, b))
  }

  /** hash_join::inner_join, as (build, probe) pairs. */
  method HashInnerJoin(nullEqualsNull: bool, Bk: Table, Pk: Table) returns (pl: seq<(nat, nat)>)
    ensures IsPairList(pl, KeyRelation(nullEqualsNull), Bk, Pk)
  {
    pl := AnyPairList(KeyRelation(nullEqualsNull), Bk, Pk);
  }

  /** conditional_inner_join, as (build, probe) pairs. */
  method ConditionalInnerJoin(m: Meaning, ast: Ast, Bc: Table, Pc: Table) returns (pl: seq<(nat, nat)>)
    ensures IsPairList(pl, AstRelation(m, ast), Bc, Pc)
  {
    pl := AnyPairList(AstRelation(m, ast), Bc, Pc);
  }

  /** The index product of two tables, probe-major. */
  method IndexProduct(nb: nat, np: nat) returns (pl: seq<(nat, nat)>)
    ensures NoDup(pl) && forall j: nat, i: nat :: (j, i) in pl <==> j < nb && i < np
  {
    pl := [];
    for i := 0 to np
      invariant NoDup(pl) && forall j: nat, h: nat :: (j, h) in pl <==> j < nb && h < i
    {
      for k := 0 to nb
        invariant NoDup(pl) && forall j: nat, h: nat :: (j, h) in pl <==> (j < nb && h < i) || (j < k && h == i)
      {
        assert (k, i) !in pl;
        pl := pl + [(k, i)];
      }
    }
  }

  method AnyPairList(m: Relation, B: Table, P: Table) returns (pl: seq<(nat, nat)>)
    ensures IsPairList(pl, m, B, P)
  {
    CanonIs(m, B, P, |P|);
    assert P[..|P|] == P;
    pl := Canon(m, B, P);
  }

  // ------------------------------------------------------------ left joins

  function InRangeIndex(k: int, n: nat): bool {
    0 <= k < n
  }

  // The (build, probe) pairs among the entries, and the probe rows of the others.
  function HitsOf(es: seq<(nat, int)>, nb: nat): seq<(nat, nat)> {
    if es == [] then []
    else
      var e := es[|es| - 1];
      HitsOf(es[..|es| - 1], nb) + if InRangeIndex(e.1, nb) then [(e.1, e.0)] else []
  }

  function MissesOf(es: seq<(nat, int)>, nb: nat): seq<nat> {
    if es == [] then []
    else
      var e := es[|es| - 1];
      MissesOf(es[..|es| - 1], nb) + if InRangeIndex(e.1, nb) then [] else [e.0]
  }

  // `ix` lists the positions of the rows of `P` that `keep` holds of, once each.
  ghost predicate IsIndexList(ix: seq<nat>, keep: Row -> bool, P: Table) {
    NoDup(ix) && forall i: nat :: i in ix <==> i < |P| && keep(P[i])
  }

  // Entries (probe, build): each match once, and for a probe row with no match one entry whose
  // build index is out of range, with no promise which.
  ghost predicate IsLeftJoinList(es: seq<(nat, int)>, m: Relation, B: Table, P: Table) {
    && IsPairList(HitsOf(es, |B|), m, B, P)
    && IsIndexList(MissesOf(es, |B|), MissedBy(m, B), P)
  }

  /** hash_join::left_join with the probe as its left. */
  method HashLeftJoin(nullEqualsNull: bool, Bk: Table, Pk: Table) returns (es: seq<(nat, int)>)
    ensures IsLeftJoinList(es, KeyRelation(nullEqualsNull), Bk, Pk)
  {
    es := AnyLeftJoinList(KeyRelation(nullEqualsNull), Bk, Pk);
  }

  /** conditional_left_join with the probe as its left. */
  method ConditionalLeftJoin(m: Meaning, ast: Ast, Pc: Table, Bc: Table) returns (es: seq<(nat, int)>)
    ensures IsLeftJoinList(es, SwappedAstRelation(m, ast), Bc, Pc)
  {
    es := AnyLeftJoinList(SwappedAstRelation(m, ast), Bc, Pc);
  }

  method AnyLeftJoinList(m: Relation, B: Table, P: Table) returns (es: seq<(nat, int)>)
    ensures IsLeftJoinList(es, m, B, P)
  {
    var pl := AnyPairList(m, B, P);
    var ix := AnyIndexList(MissedBy(m, B), P);
    forall k | 0 <= k < |pl|
      ensures pl[k].0 < |B|
    {
      assert (pl[k].0, pl[k].1) in pl;
    }
    es := MissEntries(HitEntries(pl), ix);
    HitEntriesAre(pl, |B|);
    MissEntriesAre(HitEntries(pl), ix, |B|);
  }

  function HitEntries(pl: seq<(nat, nat)>): seq<(nat, int)> {
    if pl == [] then [] else HitEntries(pl[..|pl| - 1]) + [(pl[|pl| - 1].1, pl[|pl| - 1].0)]
  }

  function MissEntries(es: seq<(nat, int)>, ix: seq<nat>): seq<(nat, int)> {
    if ix == [] then es else MissEntries(es, ix[..|ix| - 1]) + [(ix[|ix| - 1], -1)]
  }

  lemma {:induction false} HitEntriesAre(pl: seq<(nat, nat)>, nb: nat)
    requires forall k :: 0 <= k < |pl| ==> pl[k].0 < nb
    ensures HitsOf(HitEntries(pl), nb) == pl && MissesOf(HitEntries(pl), nb) == []
    decreases |pl|
  {
    if pl != [] {
      var es := HitEntries(pl);
      HitEntriesAre(pl[..|pl| - 1], nb);
      assert es[..|es| - 1] == HitEntries(pl[..|pl| - 1]);
    }
  }

  lemma {:induction false} MissEntriesAre(hits: seq<(nat, int)>, ix: seq<nat>, nb: nat)
    ensures HitsOf(MissEntries(hits, ix), nb) == HitsOf(hits, nb)
    ensures MissesOf(MissEntries(hits, ix), nb) == MissesOf(hits, nb) + ix
    decreases |ix|
  {
    if ix != [] {
      var es := MissEntries(hits, ix);
      MissEntriesAre(hits, ix[..|ix| - 1], nb);
      assert es[..|es| - 1] == MissEntries(hits, ix[..|ix| - 1]);
    }
  }

  // The row an entry gathers, an out-of-range build index giving a row of NULLs.
  function EntryRow(d: Desc, B: Table, P: Table): ((nat, int)) -> Row {
    (e: (nat, int)) => (if InRangeIndex(e.1, |B|) then B[e.1] else NullRow(d.buildWidth)) + CellRow(P, e.0)
  }

  function CellRow(P: Table, i: nat): Row {
    if i < |P| then P[i] else []
  }

  function RowOf(P: Table): nat -> Row {
    (i: nat) => CellRow(P, i)
  }

  function PadRowOf(d: Desc, P: Table): nat -> Row {
    (i: nat) => NullRow(d.buildWidth) + CellRow(P, i)
  }

  // The entries' rows are the pairs' rows and the padded rows, together.
  lemma {:induction false} EntriesSplit(d: Desc, es: seq<(nat, int)>, B: Table, P: Table)
    requires forall e :: e in es ==> e.0 < |P|
    ensures multiset(Map(EntryRow(d, B, P), es)) ==
            multiset(Map(Gathered(B, P), HitsOf(es, |B|))) + multiset(Map(PadRowOf(d, P), MissesOf(es, |B|)))
    decreases |es|
  {
    if es != [] {
      var init, e := es[..|es| - 1], es[|es| - 1];
      EntriesSplit(d, init, B, P);
      assert e in es && es == init + [e];
      hide *;
      SplitNext(init, e, |B|);
      EntryIs(d, B, P, e);
      MapThen(EntryRow(d, B, P), init, [e]);
      MapOne(EntryRow(d, B, P), e);
      var all, hits, misses :=
        Map(EntryRow(d, B, P), init), Map(Gathered(B, P), HitsOf(init, |B|)), Map(PadRowOf(d, P), MissesOf(init, |B|));
      PushOne(all, hits, misses, EntryRow(d, B, P)(e));
      if 0 <= e.1 < |B| {
        MapThen(Gathered(B, P), HitsOf(init, |B|), [(e.1 as nat, e.0)]);
        MapOne(Gathered(B, P), (e.1 as nat, e.0));
      } else {
        MapThen(PadRowOf(d, P), MissesOf(init, |B|), [e.0]);
        MapOne(PadRowOf(d, P), e.0);
      }
    }
  }

  // One more entry is one more hit or one more miss.
  lemma SplitNext(init: seq<(nat, int)>, e: (nat, int), nb: nat)
    ensures 0 <= e.1 < nb ==> HitsOf(init + [e], nb) == HitsOf(init, nb) + [(e.1 as nat, e.0)]
    ensures 0 <= e.1 < nb ==> MissesOf(init + [e], nb) == MissesOf(init, nb)
    ensures !(0 <= e.1 < nb) ==> HitsOf(init + [e], nb) == HitsOf(init, nb)
    ensures !(0 <= e.1 < nb) ==> MissesOf(init + [e], nb) == MissesOf(init, nb) + [e.0]
  {
    assert (init + [e])[..|init|] == init;
  }

  lemma MapOne<T, U>(f: T -> U, x: T)
    ensures Map(f, [x]) == [f(x)]
  {
  }

  lemma EntryIs(d: Desc, B: Table, P: Table, e: (nat, int))
    requires e.0 < |P|
    ensures EntryRow(d, B, P)(e) ==
            if 0 <= e.1 < |B| then Gathered(B, P)((e.1 as nat, e.0)) else PadRowOf(d, P)(e.0)
  {
  }

  lemma PushOne<T>(all: seq<T>, some: seq<T>, others: seq<T>, x: T)
    requires multiset(all) == multiset(some) + multiset(others)
    ensures multiset(all + [x]) == multiset(some + [x]) + multiset(others)
    ensures multiset(all + [x]) == multiset(some) + multiset(others + [x])
  {
  }

  function CanonIndices(keep: Row -> bool, P: Table): seq<nat> {
    if P == [] then []
    else CanonIndices(keep, P[..|P| - 1]) + if keep(P[|P| - 1]) then [|P| - 1] else []
  }

  lemma {:induction false} CanonIndicesAre(keep: Row -> bool, P: Table, k: nat)
    requires k <= |P|
    ensures var ix := CanonIndices(keep, P[..k]);
            && NoDup(ix)
            && (forall i: nat :: i in ix <==> i < k && keep(P[i]))
            && Map(RowOf(P), ix) == Where(keep, P[..k])
    decreases k
  {
    if k > 0 {
      CanonIndicesAre(keep, P, k - 1);
      assert P[..k][..k - 1] == P[..k - 1];
      var init: seq<nat> := CanonIndices(keep, P[..k - 1]);
      var last: seq<nat> := if keep(P[k - 1]) then [k - 1] else [];
      assert CanonIndices(keep, P[..k]) == init + last;
      MapThen(RowOf(P), init, last);
    }
  }

  // Gathering an index list gives the rows it stands for, in whatever order.
  lemma IndexListRows(ix: seq<nat>, keep: Row -> bool, P: Table)
    requires IsIndexList(ix, keep, P)
    ensures multiset(Map(RowOf(P), ix)) == multiset(Where(keep, P))
  {
    CanonIndicesAre(keep, P, |P|);
    assert P[..|P|] == P;
    SameElements(ix, CanonIndices(keep, P));
    MapPermutes(RowOf(P), ix, CanonIndices(keep, P));
  }

  lemma PaddedRows(d: Desc, ix: seq<nat>, keep: Row -> bool, P: Table)
    requires IsIndexList(ix, keep, P)
    ensures multiset(Map(PadRowOf(d, P), ix)) == multiset(Map(PadBuild(d), Where(keep, P)))
  {
    IndexListRows(ix, keep, P);
    MapPermutes(PadBuild(d), Map(RowOf(P), ix), Where(keep, P));
    assert Map(PadRowOf(d, P), ix) == Map(PadBuild(d), Map(RowOf(P), ix));
  }

  lemma {:induction false} EntriesInRange(es: seq<(nat, int)>, nb: nat, e: (nat, int))
    requires e in es
    ensures if InRangeIndex(e.1, nb) then (e.1, e.0) in HitsOf(es, nb) else e.0 in MissesOf(es, nb)
    decreases |es|
  {
    var init := es[..|es| - 1];
    assert es == init + [es[|es| - 1]];
    if e != es[|es| - 1] {
      EntriesInRange(init, nb, e);
    }
  }

  // A left join's rows: every pair, and every unmatched probe row padded, exactly once each.
  lemma LeftJoinRows(d: Desc, es: seq<(nat, int)>, m: Relation, B: Table, P: Table)
    requires IsLeftJoinList(es, m, B, P)
    ensures multiset(Map(EntryRow(d, B, P), es)) ==
            multiset(Pairs(m, B, P) + Map(PadBuild(d), Where(MissedBy(m, B), P)))
  {
    forall e | e in es
      ensures e.0 < |P|
    {
      EntriesInRange(es, |B|, e);
    }
    EntriesSplit(d, es, B, P);
    PairListRows(HitsOf(es, |B|), m, B, P);
    PaddedRows(d, MissesOf(es, |B|), MissedBy(m, B), P);
  }

  // ------------------------------------------------------------ row-wise matchers

  /** conditional_left_semi_join: the left rows some right row satisfies the predicate with. */
  method ConditionalLeftSemiJoin(m: Meaning, ast: Ast, L: Table, R: Table) returns (ix: seq<nat>)
    ensures IsIndexList(ix, MetBy(AstRelation(m, ast), R), L)
  {
    ix := AnyIndexList(MetBy(AstRelation(m, ast), R), L);
  }

  // Keys equal, and the predicate over the condition rows true.
  ghost predicate MixedMet(
      nullEqualsNull: bool, m: Meaning, ast: Ast, Lk: Table, Rk: Table, Lc: Table, Rc: Table, i: nat)
    requires |Lk| == |Lc| && |Rk| == |Rc| && i < |Lk|
  {
    exists j :: 0 <= j < |Rk| && KeysEqual(nullEqualsNull, Lk[i], Rk[j]) && IsTrue(EvalAst(m, ast, Lc[i], Rc[j]))
  }

  /** mixed_left_semi_join */
  method MixedLeftSemiJoin(nullEqualsNull: bool, m: Meaning, ast: Ast, Lk: Table, Rk: Table, Lc: Table, Rc: Table)
    returns (ix: seq<nat>)
    requires |Lk| == |Lc| && |Rk| == |Rc|
    ensures NoDup(ix) && forall i: nat :: i in ix <==> i < |Lk| && MixedMet(nullEqualsNull, m, ast, Lk, Rk, Lc, Rc, i)
  {
    ix := [];
    for i := 0 to |Lk|
      invariant NoDup(ix) && forall k: nat :: k in ix <==> k < i && MixedMet(nullEqualsNull, m, ast, Lk, Rk, Lc, Rc, k)
    {
      var found := false;
      for j := 0 to |Rk|
        invariant found <==>
          exists h :: 0 <= h < j && KeysEqual(nullEqualsNull, Lk[i], Rk[h]) && IsTrue(EvalAst(m, ast, Lc[i], Rc[h]))
      {
        if KeysEqual(nullEqualsNull, Lk[i], Rk[j]) && IsTrue(EvalAst(m, ast, Lc[i], Rc[j])) {
          found := true;
        }
      }
      if found {
        assert i !in ix;
        ix := ix + [i];
      }
    }
  }

  method AnyIndexList(keep: Row -> bool, P: Table) returns (ix: seq<nat>)
    ensures IsIndexList(ix, keep, P)
  {
    CanonIndicesAre(keep, P, |P|);
    assert P[..|P|] == P;
    ix := CanonIndices(keep, P);
  }

  // ------------------------------------------------------------ distinct keys

  // The keys of `K` that can match anything, once each.
  ghost predicate AreDistinctKeys(D: Table, nullEqualsNull: bool, K: Table) {
    && (forall k :: k in D ==> k in K)
    && (forall k :: k in K && (nullEqualsNull || Null !in k) ==> k in D)
    && (forall k :: k in D ==> nullEqualsNull || Null !in k)
    && NoDup(D)
  }

  /** drop_nulls where NULL matches nothing, then distinct. */
  method DistinctKeys(nullEqualsNull: bool, K: Table) returns (D: Table)
    ensures AreDistinctKeys(D, nullEqualsNull, K)
  {
    D := [];
    for i := 0 to |K|
      invariant NoDup(D)
      invariant forall k :: k in D <==> k in K[..i] && (nullEqualsNull || Null !in k)
    {
      assert K[..i + 1] == K[..i] + [K[i]];
      if (nullEqualsNull || Null !in K[i]) && K[i] !in D {
        D := D + [K[i]];
      }
    }
    assert K[..|K|] == K;
  }

  /** distinct_hash_join::left_join: one entry per probe row, in range exactly when it matches. */
  method DistinctLeftJoin(nullEqualsNull: bool, D: Table, Pk: Table) returns (bi: seq<int>)
    ensures |bi| == |Pk|
    ensures forall i :: 0 <= i < |Pk| ==> (InRangeIndex(bi[i], |D|) <==> Hit(KeyRelation(nullEqualsNull), D, Pk[i]))
  {
    bi := [];
    for i := 0 to |Pk|
      invariant |bi| == i
      invariant forall k :: 0 <= k < i ==> (InRangeIndex(bi[k], |D|) <==> Hit(KeyRelation(nullEqualsNull), D, Pk[k]))
    {
      if j :| 0 <= j < |D| && KeyRelation(nullEqualsNull)(D[j], Pk[i]) {
        bi := bi + [j];
      } else {
        bi := bi + [-0x8000_0000];
      }
    }
  }

  function Always(): Relation {
    (b, p) => true
  }

  /** cross_join: every pair of rows. */
  method CrossJoin(B: Table, P: Table) returns (rows: Table)
    ensures multiset(rows) == multiset(Pairs(Always(), B, P))
  {
    rows := Pairs(Always(), B, P);
  }
}
