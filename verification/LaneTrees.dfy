/**
  Lanes fed by many scatters. A scatter takes one batch a call, so a lane is the slices of many
  calls, merged along any tree. Lane by lane and put together, the answer is still that of one
  partial phase over all the rows.
 */
module LaneTrees {
  import opened Basics
  import opened Tables
  import opened JoinResidual
  import opened Aggregate
  import opened Groups
  import opened GroupCells
  import opened AggregateNode
  import opened AggregateRuns
  import opened GroupingSets
  import opened Scatter

  // ------------------------------------------------------------ scatters add up

  function BothSlices(s: seq<seq<InRow>>, t: seq<seq<InRow>>): (r: seq<seq<InRow>>)
    requires |s| == |t|
    ensures |r| == |s| && forall p :: 0 <= p < |s| ==> r[p] == s[p] + t[p]
  {
    seq(|s|, p requires 0 <= p < |s| => s[p] + t[p])
  }

  lemma {:induction false} BothConcat(s: seq<seq<InRow>>, t: seq<seq<InRow>>)
    requires |s| == |t|
    ensures multiset(Concat(BothSlices(s, t))) == multiset(Concat(s)) + multiset(Concat(t))
    decreases |s|
  {
    if s == [] {
      ConcatNothing();
    } else {
      hide Concat;
      var n, both := |s| - 1, BothSlices(s, t);
      BothConcat(s[..n], t[..n]);
      assert both[..n] == BothSlices(s[..n], t[..n]);
      LastOfConcat(both);
      LastOfConcat(s);
      LastOfConcat(t);
    }
  }

  lemma ConcatNothing()
    ensures Concat<InRow>([]) == []
  {
  }

  lemma LastOfConcat(parts: seq<seq<InRow>>)
    requires parts != []
    ensures multiset(Concat(parts)) == multiset(Concat(parts[..|parts| - 1])) + multiset(parts[|parts| - 1])
  {
  }

  // The slices of two batches, lane by lane one under the other, are a scatter of both batches.
  lemma ScattersAdd(
      lane: InRow -> int, s: seq<seq<InRow>>, xs: seq<InRow>, t: seq<seq<InRow>>, ys: seq<InRow>)
    requires |s| == |t| && IsScatter(lane, s, xs) && IsScatter(lane, t, ys)
    ensures IsScatter(lane, BothSlices(s, t), xs + ys)
  {
    hide Where, Concat, InLane;
    BothConcat(s, t);
    forall p | 0 <= p < |s|
      ensures multiset(BothSlices(s, t)[p]) == multiset(Where(InLane(lane, p), xs + ys))
    {
      WhereThen(InLane(lane, p), xs, ys);
    }
  }

  // ------------------------------------------------------------ one lane's share of a table

  function OutLane(hash: Row -> int, n: nat, p: int): OutRow -> bool
    requires n > 0
  {
    (r: OutRow) => hash(r.key) % n == p
  }

  function RowsInLane(hash: Row -> int, n: nat, p: int, rows: seq<InRow>): seq<InRow>
    requires n > 0
  {
    Where(InLane(Lane(hash, n), p), rows)
  }

  lemma LaneKeys(hash: Row -> int, n: nat, p: int, states: seq<OutRow>, rows: seq<InRow>, k: Row)
    requires n > 0
    ensures k in OutKeys(Where(OutLane(hash, n, p), states)) <==> k in OutKeys(states) && hash(k) % n == p
    ensures k in KeySet(RowsInLane(hash, n, p, rows)) <==> k in KeySet(rows) && hash(k) % n == p
  {
    hide Where;
    forall r
      ensures r in Where(OutLane(hash, n, p), states) <==> r in states && OutLane(hash, n, p)(r)
    {
      WhereHolds(OutLane(hash, n, p), states, r);
    }
    forall r
      ensures r in RowsInLane(hash, n, p, rows) <==> r in rows && InLane(Lane(hash, n), p)(r)
    {
      WhereHolds(InLane(Lane(hash, n), p), rows, r);
    }
  }

  lemma LaneColumns(hash: Row -> int, n: nat, p: int, states: seq<OutRow>, rows: seq<InRow>, k: Row, i: nat)
    requires n > 0 && hash(k) % n == p
    ensures StatesFor(Where(OutLane(hash, n, p), states), k, i) == StatesFor(states, k, i)
    ensures Column(RowsInLane(hash, n, p, rows), k, i) == Column(rows, k, i)
  {
    WhereNested(OutHasKey(k), OutLane(hash, n, p), states);
    WhereNested(HasKey(k), InLane(Lane(hash, n), p), rows);
  }

  // A lane of a table of states carries the rows of that lane.
  lemma CarriesInLane(fns: seq<Fn>, hash: Row -> int, n: nat, p: int, states: seq<OutRow>, rows: seq<InRow>)
    requires n > 0 && Carries(fns, states, rows)
    ensures Carries(fns, Where(OutLane(hash, n, p), states), RowsInLane(hash, n, p, rows))
  {
    hide Partial, Column, MergeAll, StatesFor, GroupMerge, GroupPartial, IsState, Fits, Where, RowsInLane;
    var mine, own := Where(OutLane(hash, n, p), states), RowsInLane(hash, n, p, rows);
    forall r | r in mine
      ensures RealRow(fns, r)
    {
      WhereHolds(OutLane(hash, n, p), states, r);
    }
    CarriedKeys(fns, states, rows);
    forall k
      ensures k in OutKeys(mine) <==> k in KeySet(own)
    {
      LaneKeys(hash, n, p, states, rows, k);
    }
    assert OutKeys(mine) == KeySet(own);
    forall k, i | k in KeySet(own) && 0 <= i < |fns|
      ensures GroupMerge(fns, mine)[k][i] == Partial(fns[i], Column(own, k, i))
    {
      LaneKeys(hash, n, p, states, rows, k);
      LaneColumns(hash, n, p, states, rows, k, i);
      GroupMergeAt(fns, mine, k, i);
      CarriedState(fns, states, rows, k, i);
    }
    CarriesFrom(fns, mine, own);
  }

  // One slice of a scattered table of states.
  lemma SliceCarries(
      fns: seq<Fn>, hash: Row -> int, n: nat, p: nat, states: seq<OutRow>, rows: seq<InRow>, slices: seq<seq<InRow>>)
    returns (mine: seq<OutRow>)
    requires n > 0 && p < |slices| && Carries(fns, states, rows)
    requires IsScatter(Lane(hash, n), slices, Map(FlatRow(), states))
    ensures slices[p] == Map(FlatRow(), mine) && Carries(fns, mine, RowsInLane(hash, n, p, rows))
  {
    hide Where, Carries, RowsInLane;
    var lane := Where(OutLane(hash, n, p), states);
    WhereMap(FlatRow(), InLane(Lane(hash, n), p), OutLane(hash, n, p), states);
    mine := Unmapped(FlatRow(), lane, slices[p]);
    CarriesInLane(fns, hash, n, p, states, rows);
    CarriesPermutes(fns, lane, mine, RowsInLane(hash, n, p, rows));
  }

  // ------------------------------------------------------------ a lane's tree of merges

  datatype LaneTree = Slice(at: nat) | MergeSlices(children: seq<LaneTree>)

  function Leaves(tree: LaneTree): seq<nat> {
    match tree
    case Slice(k) => [k]
    case MergeSlices(children) => LeavesOf(children)
  }

  function LeavesOf(trees: seq<LaneTree>): seq<nat> {
    if trees == [] then [] else LeavesOf(trees[..|trees| - 1]) + Leaves(trees[|trees| - 1])
  }

  // A run of the tree over a lane's slices that ends in `t`, tables brought together in any order.
  ghost predicate LaneYields(fns: seq<Fn>, tree: LaneTree, slices: seq<seq<InRow>>, t: seq<InRow>) {
    match tree
    case Slice(k) => k < |slices| && t == slices[k]
    case MergeSlices(children) =>
      exists tables, input ::
        && LaneYieldAll(fns, children, slices, tables)
        && multiset(input) == multiset(Concat(tables))
        && Aggregates(MergeFuncs(fns), AtMerge, t, input)
  }

  ghost predicate LaneYieldAll(
      fns: seq<Fn>, trees: seq<LaneTree>, slices: seq<seq<InRow>>, tables: seq<seq<InRow>>)
  {
    && |trees| == |tables|
    && (trees == [] ||
        (LaneYieldAll(fns, trees[..|trees| - 1], slices, tables[..|trees| - 1]) &&
         LaneYields(fns, trees[|trees| - 1], slices, tables[|trees| - 1])))
  }

  function RowsOfBatch(rows: seq<seq<InRow>>): nat -> seq<InRow> {
    (k: nat) => if k < |rows| then rows[k] else []
  }

  function Picked(rows: seq<seq<InRow>>, ks: seq<nat>): seq<InRow> {
    Concat(Map(RowsOfBatch(rows), ks))
  }

  lemma PickedThen(rows: seq<seq<InRow>>, a: seq<nat>, b: seq<nat>)
    ensures Picked(rows, a + b) == Picked(rows, a) + Picked(rows, b)
  {
    MapThen(RowsOfBatch(rows), a, b);
    ConcatThen(Map(RowsOfBatch(rows), a), Map(RowsOfBatch(rows), b));
  }

  lemma PickedOne(rows: seq<seq<InRow>>, k: nat)
    requires k < |rows|
    ensures Picked(rows, [k]) == rows[k]
  {
    assert Map(RowsOfBatch(rows), [k]) == [rows[k]];
    ConcatOne(rows[k]);
  }

  // Every slice is a table of states that carries its rows.
  ghost predicate SlicesCarry(
      fns: seq<Fn>, slices: seq<seq<InRow>>, states: seq<seq<OutRow>>, rows: seq<seq<InRow>>)
  {
    && |slices| == |states| == |rows|
    && forall k :: 0 <= k < |slices| ==> slices[k] == Map(FlatRow(), states[k]) && Carries(fns, states[k], rows[k])
  }

  lemma {:induction false} LaneTreeCarries(
      fns: seq<Fn>, tree: LaneTree, slices: seq<seq<InRow>>, states: seq<seq<OutRow>>, rows: seq<seq<InRow>>,
      t: seq<InRow>)
    returns (table: seq<OutRow>)
    requires SlicesCarry(fns, slices, states, rows) && LaneYields(fns, tree, slices, t)
    ensures t == Map(FlatRow(), table) && Carries(fns, table, Picked(rows, Leaves(tree)))
    ensures tree.MergeSlices? ==> Lists(table, GroupPartial(fns, Picked(rows, Leaves(tree))))
    decreases tree
  {
    match tree
    case Slice(k) =>
      hide Carries;
      PickedOne(rows, k);
      table := states[k];
    case MergeSlices(children) =>
      var tables, input :|
        && LaneYieldAll(fns, children, slices, tables)
        && multiset(input) == multiset(Concat(tables))
        && Aggregates(MergeFuncs(fns), AtMerge, t, input);
      var carried := LaneTreesCarry(fns, children, slices, states, rows, tables);
      var moved := Unmapped(FlatRow(), carried, input);
      CarriesPermutes(fns, carried, moved, Picked(rows, LeavesOf(children)));
      table := MergeLists(fns, t, moved);
      PartialCarries(fns, table, Picked(rows, LeavesOf(children)));
  }

  lemma {:induction false} LaneTreesCarry(
      fns: seq<Fn>, trees: seq<LaneTree>, slices: seq<seq<InRow>>, states: seq<seq<OutRow>>, rows: seq<seq<InRow>>,
      tables: seq<seq<InRow>>)
    returns (carried: seq<OutRow>)
    requires SlicesCarry(fns, slices, states, rows) && LaneYieldAll(fns, trees, slices, tables)
    ensures Concat(tables) == Map(FlatRow(), carried) && Carries(fns, carried, Picked(rows, LeavesOf(trees)))
    decreases trees
  {
    hide Carries, SlicesCarry, Lists, LaneYields, Picked;
    if trees == [] {
      carried := [];
      NothingCarries(fns);
      NothingPicked(rows);
    } else {
      var n := |trees| - 1;
      var before := LaneTreesCarry(fns, trees[..n], slices, states, rows, tables[..n]);
      var last := LaneTreeCarries(fns, trees[n], slices, states, rows, tables[n]);
      CarriesThen(fns, before, last, Picked(rows, LeavesOf(trees[..n])), Picked(rows, Leaves(trees[n])));
      PickedThen(rows, LeavesOf(trees[..n]), Leaves(trees[n]));
      MapThen(FlatRow(), before, last);
      carried := before + last;
    }
  }

  lemma NothingPicked(rows: seq<seq<InRow>>)
    ensures Picked(rows, []) == []
  {
    assert Map(RowsOfBatch(rows), []) == [];
  }

  // ------------------------------------------------------------ all the lanes

  // A batch's states, the rows they stand for, and the slices its scatter made of them.
  datatype ScatteredBatch = ScatteredBatch(states: seq<OutRow>, rows: seq<InRow>, slices: seq<seq<InRow>>)

  ghost predicate Feeds(fns: seq<Fn>, hash: Row -> int, n: nat, batches: seq<ScatteredBatch>)
    requires n > 0
  {
    forall k :: 0 <= k < |batches| ==>
      && Carries(fns, batches[k].states, batches[k].rows) && |batches[k].slices| == n
      && IsScatter(Lane(hash, n), batches[k].slices, Map(FlatRow(), batches[k].states))
  }

  function RowsOfBatches(batches: seq<ScatteredBatch>): (r: seq<seq<InRow>>)
    ensures |r| == |batches| && forall k :: 0 <= k < |batches| ==> r[k] == batches[k].rows
  {
    seq(|batches|, k requires 0 <= k < |batches| => batches[k].rows)
  }

  function LaneRows(hash: Row -> int, n: nat, p: int, rows: seq<seq<InRow>>): (r: seq<seq<InRow>>)
    requires n > 0
    ensures |r| == |rows| && forall k :: 0 <= k < |rows| ==> r[k] == RowsInLane(hash, n, p, rows[k])
  {
    seq(|rows|, k requires 0 <= k < |rows| => RowsInLane(hash, n, p, rows[k]))
  }

  function LaneSlices(batches: seq<ScatteredBatch>, p: nat): (r: seq<seq<InRow>>)
    requires forall k :: 0 <= k < |batches| ==> p < |batches[k].slices|
    ensures |r| == |batches| && forall k :: 0 <= k < |batches| ==> r[k] == batches[k].slices[p]
  {
    seq(|batches|, k requires 0 <= k < |batches| => batches[k].slices[p])
  }

  function Upto(m: nat): (ks: seq<nat>)
    ensures |ks| == m && forall k :: 0 <= k < m ==> ks[k] == k
  {
    seq(m, k requires 0 <= k < m => k)
  }

  lemma {:induction false} LaneStates(
      fns: seq<Fn>, hash: Row -> int, n: nat, p: nat, batches: seq<ScatteredBatch>, m: nat)
    returns (states: seq<seq<OutRow>>)
    requires n > 0 && p < n && Feeds(fns, hash, n, batches) && m <= |batches|
    ensures |states| == m
    ensures forall k :: 0 <= k < m ==>
              && batches[k].slices[p] == Map(FlatRow(), states[k])
              && Carries(fns, states[k], RowsInLane(hash, n, p, batches[k].rows))
  {
    hide Carries, IsScatter, RowsInLane;
    if m == 0 {
      states := [];
    } else {
      var before := LaneStates(fns, hash, n, p, batches, m - 1);
      var b := batches[m - 1];
      var mine := SliceCarries(fns, hash, n, p, b.states, b.rows, b.slices);
      states := before + [mine];
    }
  }

  // Picking every batch once, in any order, is all the batches.
  lemma PickedAll(rows: seq<seq<InRow>>, ks: seq<nat>)
    requires multiset(ks) == multiset(Upto(|rows|))
    ensures multiset(Picked(rows, ks)) == multiset(Concat(rows))
  {
    hide Concat;
    MapPermutes(RowsOfBatch(rows), ks, Upto(|rows|));
    ConcatPermutes(Map(RowsOfBatch(rows), ks), Map(RowsOfBatch(rows), Upto(|rows|)));
    assert Map(RowsOfBatch(rows), Upto(|rows|)) == rows;
  }

  lemma {:induction false} LaneOfAll(hash: Row -> int, n: nat, p: int, rows: seq<seq<InRow>>)
    requires n > 0
    ensures Concat(LaneRows(hash, n, p, rows)) == RowsInLane(hash, n, p, Concat(rows))
    decreases |rows|
  {
    if rows != [] {
      var m := |rows| - 1;
      LaneOfAll(hash, n, p, rows[..m]);
      assert LaneRows(hash, n, p, rows)[..m] == LaneRows(hash, n, p, rows[..m]);
      WhereThen(InLane(Lane(hash, n), p), Concat(rows[..m]), rows[m]);
    }
  }

  // A lane whose tree merges every batch's slice once lists the groups of that lane.
  lemma LaneLists(
      fns: seq<Fn>, hash: Row -> int, n: nat, p: nat, batches: seq<ScatteredBatch>, tree: LaneTree, t: seq<InRow>)
    returns (table: seq<OutRow>)
    requires n > 0 && p < n && Feeds(fns, hash, n, batches)
    requires tree.MergeSlices? && multiset(Leaves(tree)) == multiset(Upto(|batches|))
    requires LaneYields(fns, tree, LaneSlices(batches, p), t)
    ensures t == Map(FlatRow(), table)
    ensures Lists(table, GroupPartial(fns, RowsInLane(hash, n, p, Concat(RowsOfBatches(batches)))))
  {
    hide Carries, IsScatter, RowsInLane, Lists, LaneYields, Picked, Concat, Leaves, GroupPartial;
    var states := LaneStates(fns, hash, n, p, batches, |batches|);
    var rows := LaneRows(hash, n, p, RowsOfBatches(batches));
    assert SlicesCarry(fns, LaneSlices(batches, p), states, rows);
    table := LaneTreeCarries(fns, tree, LaneSlices(batches, p), states, rows, t);
    PickedAll(rows, Leaves(tree));
    LaneOfAll(hash, n, p, RowsOfBatches(batches));
    GroupPartialPermutes(fns, Picked(rows, Leaves(tree)), Concat(rows));
  }

  // Tables of groups that share no key list the groups of both.
  lemma ApartLists(fns: seq<Fn>, s: seq<OutRow>, xs: seq<InRow>, t: seq<OutRow>, ys: seq<InRow>)
    requires Lists(s, GroupPartial(fns, xs)) && Lists(t, GroupPartial(fns, ys)) && KeySet(xs) !! KeySet(ys)
    ensures Lists(s + t, GroupPartial(fns, xs + ys))
  {
    hide Partial, StatesOf, Column;
    KeysThen(s, t, xs, ys);
    forall k
      ensures k !in KeySet(ys) ==> StatesOf(fns, xs + ys, k) == StatesOf(fns, xs, k)
      ensures k !in KeySet(xs) ==> StatesOf(fns, xs + ys, k) == StatesOf(fns, ys, k)
    {
      ApartStates(fns, xs, ys, k);
    }
    forall i | 0 <= i < |s|
      ensures s[i].key in KeySet(xs)
    {
      assert s[i] in s;
    }
    forall i | 0 <= i < |t|
      ensures t[i].key in KeySet(ys)
    {
      assert t[i] in t;
    }
  }

  lemma ApartStates(fns: seq<Fn>, xs: seq<InRow>, ys: seq<InRow>, k: Row)
    ensures k !in KeySet(ys) ==> StatesOf(fns, xs + ys, k) == StatesOf(fns, xs, k)
    ensures k !in KeySet(xs) ==> StatesOf(fns, xs + ys, k) == StatesOf(fns, ys, k)
  {
    hide Partial, Column;
    forall i: nat
      ensures k !in KeySet(ys) ==> Column(xs + ys, k, i) == Column(xs, k, i)
      ensures k !in KeySet(xs) ==> Column(xs + ys, k, i) == Column(ys, k, i)
    {
      ColumnThen(xs, ys, k, i);
      assert Column(xs, k, i) + [] == Column(xs, k, i) && [] + Column(ys, k, i) == Column(ys, k, i);
    }
  }

  // The rows of the first lanes and those of the next.
  lemma NextLaneRows(hash: Row -> int, n: nat, p: nat, all: seq<InRow>)
    requires n > 0 && p < n
    ensures var below := Where(BelowLane(Lane(hash, n), p), all);
            && multiset(Where(BelowLane(Lane(hash, n), p + 1), all)) == multiset(below + RowsInLane(hash, n, p, all))
            && KeySet(below) !! KeySet(RowsInLane(hash, n, p, all))
  {
    hide Where;
    var lane := Lane(hash, n);
    var below, own := Where(BelowLane(lane, p), all), RowsInLane(hash, n, p, all);
    WhereEither(BelowLane(lane, p), InLane(lane, p), BelowLane(lane, p + 1), all);
    forall x, y | x in below && y in own
      ensures lane(x) != lane(y)
    {
      WhereHolds(BelowLane(lane, p), all, x);
      WhereHolds(InLane(lane, p), all, y);
    }
    LanesApart(hash, n, below, own);
  }

  lemma {:induction false} LanesList(
      fns: seq<Fn>, hash: Row -> int, n: nat, all: seq<InRow>, outs: seq<seq<InRow>>, tables: seq<seq<OutRow>>, m: nat)
    returns (table: seq<OutRow>)
    requires n > 0 && |outs| == |tables| == n && m <= n
    requires forall p :: 0 <= p < n ==>
               outs[p] == Map(FlatRow(), tables[p]) && Lists(tables[p], GroupPartial(fns, RowsInLane(hash, n, p, all)))
    ensures Concat(outs[..m]) == Map(FlatRow(), table)
    ensures Lists(table, GroupPartial(fns, Where(BelowLane(Lane(hash, n), m), all)))
  {
    hide *;
    if m == 0 {
      table := NoLanes(fns, hash, n, all, outs);
    } else {
      var before := LanesList(fns, hash, n, all, outs, tables, m - 1);
      var below, own := Where(BelowLane(Lane(hash, n), m - 1), all), RowsInLane(hash, n, m - 1, all);
      NextLaneRows(hash, n, m - 1, all);
      ApartLists(fns, before, below, tables[m - 1], own);
      GroupPartialPermutes(fns, below + own, Where(BelowLane(Lane(hash, n), m), all));
      ConcatUpto(outs, m);
      MapThen(FlatRow(), before, tables[m - 1]);
      table := before + tables[m - 1];
    }
  }

  lemma NoLanes(fns: seq<Fn>, hash: Row -> int, n: nat, all: seq<InRow>, outs: seq<seq<InRow>>)
    returns (table: seq<OutRow>)
    requires n > 0
    ensures Concat(outs[..0]) == Map(FlatRow(), table)
    ensures Lists(table, GroupPartial(fns, Where(BelowLane(Lane(hash, n), 0), all)))
  {
    table := [];
    WhereNone(BelowLane(Lane(hash, n), 0), all);
    assert outs[..0] == [];
  }

  lemma {:induction false} EachLane(
      fns: seq<Fn>, hash: Row -> int, n: nat, batches: seq<ScatteredBatch>, trees: seq<LaneTree>, outs: seq<seq<InRow>>,
      m: nat)
    returns (tables: seq<seq<OutRow>>)
    requires n > 0 && |trees| == |outs| == n && m <= n && Feeds(fns, hash, n, batches)
    requires forall p :: 0 <= p < n ==>
               && trees[p].MergeSlices? && multiset(Leaves(trees[p])) == multiset(Upto(|batches|))
               && LaneYields(fns, trees[p], LaneSlices(batches, p), outs[p])
    ensures |tables| == m
    ensures forall p :: 0 <= p < m ==>
              && outs[p] == Map(FlatRow(), tables[p])
              && Lists(tables[p], GroupPartial(fns, RowsInLane(hash, n, p, Concat(RowsOfBatches(batches)))))
  {
    hide Feeds, Lists, GroupPartial, RowsInLane, LaneYields, Leaves, Concat;
    if m == 0 {
      tables := [];
    } else {
      SlicesWide(fns, hash, n, batches);
      var before := EachLane(fns, hash, n, batches, trees, outs, m - 1);
      var last := LaneLists(fns, hash, n, m - 1, batches, trees[m - 1], outs[m - 1]);
      tables := before + [last];
    }
  }

  lemma SlicesWide(fns: seq<Fn>, hash: Row -> int, n: nat, batches: seq<ScatteredBatch>)
    requires n > 0 && Feeds(fns, hash, n, batches)
    ensures forall k :: 0 <= k < |batches| ==> |batches[k].slices| == n
  {
  }

  // Any batches of states, each scattered on its own, every lane merging its slices along a tree of
  // its own: the lanes' answers together list the groups of all the rows, each in the lane its key's
  // hash says, its cells what all the rows of that key say.
  lemma ScatteredBatchesMerge(
      fns: seq<Fn>, hash: Row -> int, n: nat, batches: seq<ScatteredBatch>, trees: seq<LaneTree>, outs: seq<seq<InRow>>)
    returns (table: seq<OutRow>)
    requires n > 0 && |trees| == |outs| == n && Feeds(fns, hash, n, batches)
    requires forall p :: 0 <= p < n ==>
               && trees[p].MergeSlices? && multiset(Leaves(trees[p])) == multiset(Upto(|batches|))
               && LaneYields(fns, trees[p], LaneSlices(batches, p), outs[p])
    ensures Concat(outs) == Map(FlatRow(), table)
    ensures Lists(table, GroupPartial(fns, Concat(RowsOfBatches(batches))))
    ensures HoldsGroups(fns, FirstColumns(|fns|), Concat(outs), Concat(RowsOfBatches(batches)))
    ensures forall p, r :: 0 <= p < n && r in outs[p] ==> hash(r.key) % n == p
  {
    hide Feeds, Lists, GroupPartial, RowsInLane, LaneYields, Leaves, Concat, Where, HoldsGroups;
    var all := Concat(RowsOfBatches(batches));
    var tables := EachLane(fns, hash, n, batches, trees, outs, n);
    table := LanesList(fns, hash, n, all, outs, tables, n);
    assert outs[..n] == outs;
    WhereAll(BelowLane(Lane(hash, n), n), all);
    ListedHold(fns, table, all);
    forall p, r | 0 <= p < n && r in outs[p]
      ensures hash(r.key) % n == p
    {
      InItsLane(fns, hash, n, p, all, tables[p], r);
    }
  }

  lemma InItsLane(
      fns: seq<Fn>, hash: Row -> int, n: nat, p: nat, all: seq<InRow>, table: seq<OutRow>, r: InRow)
    requires p < n && Lists(table, GroupPartial(fns, RowsInLane(hash, n, p, all))) && r in Map(FlatRow(), table)
    ensures hash(r.key) % n == p
  {
    hide Where, StatesOf, FlatStates;
    var own := RowsInLane(hash, n, p, all);
    var j :| 0 <= j < |table| && FlatRow()(table[j]) == r;
    assert table[j] in table && r.key in KeySet(own);
    var x :| x in own && x.key == r.key;
    WhereHolds(InLane(Lane(hash, n), p), all, x);
  }
}
