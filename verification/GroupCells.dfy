/**
  What a group's cells hold, said of the rows themselves: the least and the greatest value that
  occurs, how many there are, what they add up to and how far they lie from their mean. Nothing
  here is about batches, states or merging; the lemmas say that a partial state is this.
 */
module GroupCells {
  import opened Basics
  import opened Tables
  import opened JoinResidual
  import opened Aggregate
  import opened Groups

  // ------------------------------------------------------------ the values of a group

  // The row is of the group and has a value in the column.
  predicate Counts(q: InRow, k: Row, i: nat) {
    q.key == k && i < |q.args| && q.args[i].Val?
  }

  ghost predicate Occurs(rows: seq<InRow>, k: Row, i: nat, x: real) {
    exists q :: q in rows && Counts(q, k, i) && q.args[i].x == x
  }

  ghost function Positions(rows: seq<InRow>, k: Row, i: nat): set<nat> {
    set j: nat | j < |rows| && Counts(rows[j], k, i)
  }

  ghost function HowMany(rows: seq<InRow>, k: Row, i: nat): nat {
    |Positions(rows, k, i)|
  }

  // Adding what each value contributes, row by row, ends at `total`.
  ghost predicate AddsUp(rows: seq<InRow>, k: Row, i: nat, term: real -> real, total: real) {
    exists acc :: Accumulates(acc, rows, k, i, term, total)
  }

  ghost predicate Accumulates(
      acc: seq<real>, rows: seq<InRow>, k: Row, i: nat, term: real -> real, total: real)
  {
    && |acc| == |rows| + 1 && acc[0] == 0.0 && acc[|rows|] == total
    && forall j :: 0 <= j < |rows| ==>
         acc[j + 1] == acc[j] + if Counts(rows[j], k, i) then term(rows[j].args[i].x) else 0.0
  }

  function Itself(): real -> real { x => x }

  function DistanceSquared(c: real): real -> real { x => (x - c) * (x - c) }

  function Times(a: real, b: real): real {
    a * b
  }

  // What a function's cells hold for the group `k` of some rows, whose column `i` it reads.
  ghost predicate HoldsState(f: Fn, rows: seq<InRow>, k: Row, i: nat, cells: seq<Maybe>) {
    match f
    case Sum =>
      && |cells| == 1
      && (cells[0].NoValue? <==> forall x :: !Occurs(rows, k, i, x))
      && (cells[0].Val? ==> AddsUp(rows, k, i, Itself(), cells[0].x))
    case MinOf =>
      && |cells| == 1
      && (cells[0].NoValue? <==> forall x :: !Occurs(rows, k, i, x))
      && (cells[0].Val? ==> Occurs(rows, k, i, cells[0].x) && forall x :: Occurs(rows, k, i, x) ==> cells[0].x <= x)
    case MaxOf =>
      && |cells| == 1
      && (cells[0].NoValue? <==> forall x :: !Occurs(rows, k, i, x))
      && (cells[0].Val? ==> Occurs(rows, k, i, cells[0].x) && forall x :: Occurs(rows, k, i, x) ==> cells[0].x >= x)
    case Count =>
      cells == [Val(HowMany(rows, k, i) as real)]
    case Welford =>
      && |cells| == 3 && cells[0].Val? && cells[1].Val? && cells[2].Val?
      && HoldsMoments(rows, k, i, cells[0].x, cells[1].x, cells[2].x)
  }

  // The number, the mean and the sum of squared distances from it, all zero of no value.
  ghost predicate HoldsMoments(rows: seq<InRow>, k: Row, i: nat, n: real, mean: real, m2: real) {
    && n == HowMany(rows, k, i) as real
    && (n == 0.0 ==> mean == 0.0)
    && AddsUp(rows, k, i, Itself(), Times(n, mean))
    && AddsUp(rows, k, i, DistanceSquared(mean), m2)
  }

  // Where each function's cells begin.
  ghost predicate IsLayout(fns: seq<Fn>, at: seq<nat>) {
    && |at| == |fns| + 1 && at[0] == 0
    && forall i :: 0 <= i < |fns| ==> at[i + 1] == at[i] + if fns[i] == Welford then 3 else 1
  }

  // A group's cells, function by function; `cols` says which column each reads.
  ghost predicate HoldsStates(fns: seq<Fn>, cols: seq<nat>, rows: seq<InRow>, k: Row, cells: seq<Maybe>)
    requires |cols| == |fns|
  {
    exists at :: IsLayout(fns, at) && at[|fns|] == |cells| && HoldsAt(fns, cols, rows, k, cells, at)
  }

  ghost predicate HoldsAt(
      fns: seq<Fn>, cols: seq<nat>, rows: seq<InRow>, k: Row, cells: seq<Maybe>, at: seq<nat>)
    requires |cols| == |fns| && |at| == |fns| + 1
  {
    forall i :: 0 <= i < |fns| ==> HoldsFrom(fns[i], cols[i], rows, k, cells, at[i])
  }

  ghost predicate HoldsFrom(f: Fn, col: nat, rows: seq<InRow>, k: Row, cells: seq<Maybe>, from: nat) {
    var to := from + if f == Welford then 3 else 1;
    to <= |cells| && HoldsState(f, rows, k, col, cells[from..to])
  }

  ghost predicate HasRow(rows: seq<InRow>, k: Row) {
    exists q :: q in rows && q.key == k
  }

  // One row for each key there is, and it holds its group's cells.
  ghost predicate HoldsGroups(fns: seq<Fn>, cols: seq<nat>, table: seq<InRow>, rows: seq<InRow>)
    requires |cols| == |fns|
  {
    && (forall i, j :: 0 <= i < j < |table| ==> table[i].key != table[j].key)
    && (forall k :: HasRow(table, k) <==> HasRow(rows, k))
    && forall r :: r in table ==> HoldsStates(fns, cols, rows, r.key, r.args)
  }

  // ------------------------------------------------------------ extremes

  lemma {:induction false} ValidIs(vs: seq<Maybe>, x: real)
    ensures x in Valid(vs) <==> Val(x) in vs
    decreases |vs|
  {
    if vs != [] {
      ValidIs(vs[..|vs| - 1], x);
      assert vs == vs[..|vs| - 1] + [vs[|vs| - 1]];
    }
  }

  lemma {:induction false} ExtremesAre(xs: seq<real>)
    ensures Least(xs).NoValue? <==> xs == []
    ensures Greatest(xs).NoValue? <==> xs == []
    ensures Least(xs).Val? ==> Least(xs).x in xs && forall x :: x in xs ==> Least(xs).x <= x
    ensures Greatest(xs).Val? ==> Greatest(xs).x in xs && forall x :: x in xs ==> Greatest(xs).x >= x
    decreases |xs|
  {
    if xs != [] {
      ExtremesAre(xs[..|xs| - 1]);
      assert xs == xs[..|xs| - 1] + [xs[|xs| - 1]];
    }
  }

  /** MIN and MAX of some values: NULL where none is valid, otherwise a valid value none is beyond. */
  lemma ExtremesMean(vs: seq<Maybe>)
    ensures var m := Partial(MinOf, vs);
            && m.One? && (m.value.NoValue? <==> forall v :: v in vs ==> v.NoValue?)
            && (m.value.Val? ==> m.value in vs && forall v :: v in vs && v.Val? ==> m.value.x <= v.x)
    ensures var m := Partial(MaxOf, vs);
            && m.One? && (m.value.NoValue? <==> forall v :: v in vs ==> v.NoValue?)
            && (m.value.Val? ==> m.value in vs && forall v :: v in vs && v.Val? ==> m.value.x >= v.x)
  {
    var xs := Valid(vs);
    ExtremesAre(xs);
    forall x
      ensures x in xs <==> Val(x) in vs
    {
      ValidIs(vs, x);
    }
    assert xs != [] ==> xs[0] in xs;
    assert forall v :: v in vs && v.Val? ==> v.x in xs;
    hide Least, Greatest, Valid;
  }

  // ------------------------------------------------------------ a column's values are its rows'

  lemma OccursInColumn(rows: seq<InRow>, k: Row, i: nat, x: real)
    ensures Occurs(rows, k, i, x) <==> Val(x) in Column(rows, k, i)
  {
    var kept := Where(HasKey(k), rows);
    if q :| q in rows && Counts(q, k, i) && q.args[i].x == x {
      WhereHolds(HasKey(k), rows, q);
      var j :| 0 <= j < |kept| && kept[j] == q;
      assert Column(rows, k, i)[j] == Val(x);
    }
    if Val(x) in Column(rows, k, i) {
      var j :| 0 <= j < |kept| && Column(rows, k, i)[j] == Val(x);
      WhereHolds(HasKey(k), rows, kept[j]);
    }
  }

  lemma ColumnNext(rows: seq<InRow>, k: Row, i: nat)
    requires rows != []
    ensures var n := |rows| - 1;
            Valid(Column(rows, k, i)) ==
            Valid(Column(rows[..n], k, i)) + if Counts(rows[n], k, i) then [rows[n].args[i].x] else []
  {
    hide Column, Valid;
    var init, last := rows[..|rows| - 1], rows[|rows| - 1];
    assert rows == init + [last];
    ColumnThen(init, [last], k, i);
    ValidThen(Column(init, k, i), Column([last], k, i));
    LoneColumn(last, k, i);
  }

  lemma LoneColumn(q: InRow, k: Row, i: nat)
    ensures Valid(Column([q], k, i)) == if Counts(q, k, i) then [q.args[i].x] else []
  {
    assert [q][..0] == [] && [q][0] == q;
    assert Where(HasKey(k), [q]) == if q.key == k then [q] else [];
    if q.key == k {
      assert Map(Arg(i), [q]) == [Arg(i)(q)];
    }
  }

  lemma {:induction false} CountIs(rows: seq<InRow>, k: Row, i: nat)
    ensures |Valid(Column(rows, k, i))| == HowMany(rows, k, i)
    decreases |rows|
  {
    if rows == [] {
      assert Positions(rows, k, i) == {};
    } else {
      hide Column, Valid, HowMany;
      CountIs(rows[..|rows| - 1], k, i);
      ColumnNext(rows, k, i);
      OneMoreCounted(rows, k, i);
    }
  }

  lemma OneMoreCounted(rows: seq<InRow>, k: Row, i: nat)
    requires rows != []
    ensures var n := |rows| - 1;
            HowMany(rows, k, i) == HowMany(rows[..n], k, i) + if Counts(rows[n], k, i) then 1 else 0
  {
    var n := |rows| - 1;
    var found, before := Positions(rows, k, i), Positions(rows[..n], k, i);
    assert n !in before;
    assert found == before + if Counts(rows[n], k, i) then {n} else {};
  }

  // The running total after some rows.
  ghost function Running(rows: seq<InRow>, k: Row, i: nat, term: real -> real): real {
    if rows == [] then 0.0
    else
      var n := |rows| - 1;
      Running(rows[..n], k, i, term) + if Counts(rows[n], k, i) then term(rows[n].args[i].x) else 0.0
  }

  lemma RunningAddsUp(rows: seq<InRow>, k: Row, i: nat, term: real -> real)
    ensures AddsUp(rows, k, i, term, Running(rows, k, i, term))
  {
    var acc := seq(|rows| + 1, j requires 0 <= j <= |rows| => Running(rows[..j], k, i, term));
    assert rows[..|rows|] == rows;
    forall j | 0 <= j < |rows|
      ensures acc[j + 1] == acc[j] + if Counts(rows[j], k, i) then term(rows[j].args[i].x) else 0.0
    {
      RunningNext(rows, k, i, term, j);
    }
    assert Accumulates(acc, rows, k, i, term, Running(rows, k, i, term));
  }

  lemma RunningNext(rows: seq<InRow>, k: Row, i: nat, term: real -> real, j: nat)
    requires j < |rows|
    ensures Running(rows[..j + 1], k, i, term) ==
            Running(rows[..j], k, i, term) + if Counts(rows[j], k, i) then term(rows[j].args[i].x) else 0.0
  {
    assert rows[..j + 1][..j] == rows[..j];
  }

  lemma {:induction false} TotalsRun(rows: seq<InRow>, k: Row, i: nat, c: real)
    ensures Running(rows, k, i, Itself()) == Total(Valid(Column(rows, k, i)))
    ensures Running(rows, k, i, DistanceSquared(c)) == Spread(Valid(Column(rows, k, i)), c)
    decreases |rows|
  {
    if rows != [] {
      var n := |rows| - 1;
      TotalsRun(rows[..n], k, i, c);
      ColumnNext(rows, k, i);
      var init := Valid(Column(rows[..n], k, i));
      hide Column, Valid, Total, Spread;
      if Counts(rows[n], k, i) {
        OneMoreTerm(init, rows[n].args[i].x, c);
      } else {
        assert Valid(Column(rows, k, i)) == init;
      }
    }
  }

  lemma OneMoreTerm(init: seq<real>, x: real, c: real)
    ensures Total(init + [x]) == Total(init) + Itself()(x)
    ensures Spread(init + [x], c) == Spread(init, c) + DistanceSquared(c)(x)
  {
    assert (init + [x])[..|init + [x]| - 1] == init;
  }

  lemma AddUp(rows: seq<InRow>, k: Row, i: nat, c: real)
    ensures AddsUp(rows, k, i, Itself(), Total(Valid(Column(rows, k, i))))
    ensures AddsUp(rows, k, i, DistanceSquared(c), Spread(Valid(Column(rows, k, i)), c))
  {
    hide AddsUp, Running, Total, Spread, Valid, Column;
    TotalsRun(rows, k, i, c);
    RunningAddsUp(rows, k, i, Itself());
    RunningAddsUp(rows, k, i, DistanceSquared(c));
  }

  lemma OccursIffValid(rows: seq<InRow>, k: Row, i: nat)
    ensures forall x :: Occurs(rows, k, i, x) <==> x in Valid(Column(rows, k, i))
    ensures Valid(Column(rows, k, i)) == [] <==> forall x :: !Occurs(rows, k, i, x)
  {
    var xs := Valid(Column(rows, k, i));
    hide *;
    forall x
      ensures Occurs(rows, k, i, x) <==> x in xs
    {
      OccursInColumn(rows, k, i, x);
      ValidIs(Column(rows, k, i), x);
    }
    if xs != [] {
      assert xs[0] in xs && Occurs(rows, k, i, xs[0]);
    }
  }

  lemma TimesMean(xs: seq<real>)
    ensures Times(|xs| as real, Mean(xs)) == Total(xs)
  {
    MeanTimes(xs);
  }

  lemma WelfordHolds(rows: seq<InRow>, k: Row, i: nat)
    ensures HoldsState(Welford, rows, k, i, Flat(Partial(Welford, Column(rows, k, i))))
  {
    hide AddsUp, HowMany, Column, Valid, Total, Spread, Mean, Itself, DistanceSquared, Times;
    var xs := Valid(Column(rows, k, i));
    var mean := Mean(xs);
    CountIs(rows, k, i);
    TimesMean(xs);
    AddUp(rows, k, i, mean);
    if |xs| == 0 {
      assert xs == [];
      NoMean();
    }
    var n := HowMany(rows, k, i) as real;
    assert Times(n, mean) == Total(xs);
    assert HoldsMoments(rows, k, i, n, mean, Spread(xs, mean));
  }

  /** A partial state is what the rows of its group say. */
  lemma StateHolds(f: Fn, rows: seq<InRow>, k: Row, i: nat)
    ensures HoldsState(f, rows, k, i, Flat(Partial(f, Column(rows, k, i))))
  {
    hide AddsUp, Occurs, HowMany, Column, Valid, Least, Greatest, Total, Spread, Mean, Itself, DistanceSquared;
    var xs := Valid(Column(rows, k, i));
    OccursIffValid(rows, k, i);
    AddUp(rows, k, i, Mean(xs));
    match f
    case Sum =>
    case MinOf => ExtremesAre(xs);
    case MaxOf => ExtremesAre(xs);
    case Count => CountIs(rows, k, i);
    case Welford => WelfordHolds(rows, k, i);
  }

  lemma NoMean()
    ensures Mean([]) == 0.0
  {
  }

  // ------------------------------------------------------------ function by function

  lemma NothingHeld(rows: seq<InRow>, k: Row)
    ensures HoldsStates([], [], rows, k, [])
  {
    assert IsLayout([], [0]) && HoldsAt([], [], rows, k, [], [0]);
  }

  lemma OneMoreHeld(fns: seq<Fn>, cols: seq<nat>, rows: seq<InRow>, k: Row, cells: seq<Maybe>, f: Fn, col: nat)
    requires |cols| == |fns| && HoldsStates(fns, cols, rows, k, cells)
    ensures HoldsStates(fns + [f], cols + [col], rows, k, cells + Flat(Partial(f, Column(rows, k, col))))
  {
    hide HoldsState, Partial, Column;
    StateHolds(f, rows, k, col);
    var more := Flat(Partial(f, Column(rows, k, col)));
    FlatPartial(f, Column(rows, k, col));
    var at :| IsLayout(fns, at) && at[|fns|] == |cells| && HoldsAt(fns, cols, rows, k, cells, at);
    var end: nat := |cells| + |more|;
    var at', cells' := at + [end], cells + more;
    forall i | 0 <= i < |fns + [f]|
      ensures HoldsFrom((fns + [f])[i], (cols + [col])[i], rows, k, cells', at'[i])
    {
      if i < |fns| {
        assert HoldsFrom(fns[i], cols[i], rows, k, cells, at[i]);
        Further(fns[i], cols[i], rows, k, cells, more, at[i]);
      } else {
        assert cells'[|cells|..end] == more;
      }
    }
    assert IsLayout(fns + [f], at') && HoldsAt(fns + [f], cols + [col], rows, k, cells', at');
  }

  lemma Further(f: Fn, col: nat, rows: seq<InRow>, k: Row, cells: seq<Maybe>, more: seq<Maybe>, from: nat)
    requires HoldsFrom(f, col, rows, k, cells, from)
    ensures HoldsFrom(f, col, rows, k, cells + more, from)
  {
    hide HoldsState;
    var to := from + if f == Welford then 3 else 1;
    assert (cells + more)[from..to] == cells[from..to];
  }

  lemma FlatPartial(f: Fn, vs: seq<Maybe>)
    ensures |Flat(Partial(f, vs))| == Width(f)
  {
  }
}
