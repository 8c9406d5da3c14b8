/**
  The states of an aggregation. A partial phase turns a group's values into a state per function
  and a merge phase brings states together. Here is the algebra of one group: merging the states
  of two batches is the state of both together, so the states of a function are a commutative
  monoid whose neutral element is the state over no rows.

  Values and moments are real numbers: no rounding and no NaN.
 */
module Aggregate {
  import opened Tables

  datatype Maybe = NoValue | Val(x: real)

  // ------------------------------------------------------------ one group, one function

  datatype Fn = Sum | MinOf | MaxOf | Count | Welford

  // A function's state columns.
  datatype Moment =
    | One(value: Maybe)                       // sum, min, max
    | Counted(n: int)                         // count, always a number
    | Welf(count: int, mean: real, m2: real)  // never NULL: no valid value is (0, 0, 0)

  // How many columns hold a function's state.
  function Width(f: Fn): nat {
    if f == Welford then 3 else 1
  }

  // A state as the columns it is held in.
  function Flat(s: Moment): seq<Maybe> {
    match s
    case One(v) => [v]
    case Counted(n) => [Val(n as real)]
    case Welf(n, mean, m2) => [Val(n as real), Val(mean), Val(m2)]
  }

  // The values of a column that are not NULL.
  function Valid(vs: seq<Maybe>): seq<real> {
    if vs == [] then []
    else Valid(vs[..|vs| - 1]) + if vs[|vs| - 1].Val? then [vs[|vs| - 1].x] else []
  }

  function Total(xs: seq<real>): real {
    if xs == [] then 0.0 else Total(xs[..|xs| - 1]) + xs[|xs| - 1]
  }

  function Least(xs: seq<real>): Maybe {
    if xs == [] then NoValue else Smaller(Least(xs[..|xs| - 1]), Val(xs[|xs| - 1]))
  }

  function Greatest(xs: seq<real>): Maybe {
    if xs == [] then NoValue else Larger(Greatest(xs[..|xs| - 1]), Val(xs[|xs| - 1]))
  }

  function Smaller(a: Maybe, b: Maybe): Maybe {
    if a.NoValue? then b else if b.NoValue? then a else if b.x < a.x then b else a
  }

  function Larger(a: Maybe, b: Maybe): Maybe {
    if a.NoValue? then b else if b.NoValue? then a else if b.x > a.x then b else a
  }

  function Mean(xs: seq<real>): real {
    if xs == [] then 0.0 else Total(xs) / (|xs| as real)
  }

  // The sum of squared distances from `c`.
  function Spread(xs: seq<real>, c: real): real {
    if xs == [] then 0.0 else Spread(xs[..|xs| - 1], c) + Square(xs[|xs| - 1] - c)
  }

  function Square(d: real): real {
    d * d
  }

  // What the partial phase answers for a group: SUM, MIN and MAX of no valid value are NULL,
  // COUNT and the Welford moments are zero.
  function Partial(f: Fn, vs: seq<Maybe>): Moment {
    var xs := Valid(vs);
    match f
    case Sum => One(if xs == [] then NoValue else Val(Total(xs)))
    case MinOf => One(Least(xs))
    case MaxOf => One(Greatest(xs))
    case Count => Counted(|xs|)
    case Welford => Moments(xs)
  }

  // ------------------------------------------------------------ merging states

  predicate Fits(f: Fn, s: Moment) {
    match f
    case Sum => s.One?
    case MinOf => s.One?
    case MaxOf => s.One?
    case Count => s.Counted?
    case Welford => s.Welf?
  }

  function Plus(a: Maybe, b: Maybe): Maybe {
    if a.NoValue? then b else if b.NoValue? then a else Val(a.x + b.x)
  }

  // Two states of one function as one: sums and counts add, extremes compare, and Welford
  // moments combine by the parallel formula, zero where neither side has a value.
  function Merge2(f: Fn, a: Moment, b: Moment): Moment
    requires Fits(f, a) && Fits(f, b)
  {
    match f
    case Sum => One(Plus(a.value, b.value))
    case MinOf => One(Smaller(a.value, b.value))
    case MaxOf => One(Larger(a.value, b.value))
    case Count => Counted(a.n + b.n)
    case Welford => MergeM2(a, b)
  }

  function MergeM2(a: Moment, b: Moment): Moment
    requires a.Welf? && b.Welf?
  {
    var n := a.count + b.count;
    if n == 0 then Welf(0, 0.0, 0.0)
    else
      var mean := MergedMean(a, b);
      Welf(n, mean, MergedSpread(a, b, mean))
  }

  function MergedMean(a: Moment, b: Moment): real
    requires a.Welf? && b.Welf? && a.count + b.count != 0
  {
    ((a.count as real) * a.mean + (b.count as real) * b.mean) / ((a.count + b.count) as real)
  }

  function MergedSpread(a: Moment, b: Moment, mean: real): real
    requires a.Welf? && b.Welf?
  {
    a.m2 + b.m2 + (a.count as real) * ((a.mean - mean) * (a.mean - mean))
                + (b.count as real) * ((b.mean - mean) * (b.mean - mean))
  }

  function Moments(xs: seq<real>): (m: Moment)
    ensures m.Welf? && m.count == |xs|
  {
    Welf(|xs|, Mean(xs), Spread(xs, Mean(xs)))
  }

  // ------------------------------------------------------------ homomorphism

  lemma {:induction false} ValidThen(vs: seq<Maybe>, ws: seq<Maybe>)
    ensures Valid(vs + ws) == Valid(vs) + Valid(ws)
    decreases |ws|
  {
    if ws == [] {
      assert vs + ws == vs;
    } else {
      assert (vs + ws)[..|vs + ws| - 1] == vs + ws[..|ws| - 1];
      ValidThen(vs, ws[..|ws| - 1]);
    }
  }

  lemma {:induction false} TotalThen(xs: seq<real>, ys: seq<real>)
    ensures Total(xs + ys) == Total(xs) + Total(ys)
    decreases |ys|
  {
    if ys == [] {
      assert xs + ys == xs;
    } else {
      assert (xs + ys)[..|xs + ys| - 1] == xs + ys[..|ys| - 1];
      TotalThen(xs, ys[..|ys| - 1]);
    }
  }

  lemma {:induction false} ExtremesThen(xs: seq<real>, ys: seq<real>)
    ensures Least(xs + ys) == Smaller(Least(xs), Least(ys))
    ensures Greatest(xs + ys) == Larger(Greatest(xs), Greatest(ys))
    decreases |ys|
  {
    if ys == [] {
      assert xs + ys == xs;
    } else {
      assert (xs + ys)[..|xs + ys| - 1] == xs + ys[..|ys| - 1];
      ExtremesThen(xs, ys[..|ys| - 1]);
    }
  }

  lemma {:induction false} SpreadThen(xs: seq<real>, ys: seq<real>, c: real)
    ensures Spread(xs + ys, c) == Spread(xs, c) + Spread(ys, c)
    decreases |ys|
  {
    if ys == [] {
      assert xs + ys == xs;
    } else {
      assert (xs + ys)[..|xs + ys| - 1] == xs + ys[..|ys| - 1];
      SpreadThen(xs, ys[..|ys| - 1], c);
    }
  }

  // Moving the centre: the spread about `c` from the spread `s` about another point `e`, given
  // the total and the number of the values.
  function Moved(s: real, t: real, n: real, c: real, e: real): real {
    s + 2.0 * ((e - c) * (t - n * e)) + n * ((e - c) * (e - c))
  }

  lemma {:induction false} SpreadShifts(xs: seq<real>, c: real, e: real)
    ensures Spread(xs, c) == Moved(Spread(xs, e), Total(xs), |xs| as real, c, e)
    decreases |xs|
  {
    if xs == [] {
      assert Moved(0.0, 0.0, 0.0, c, e) == 0.0;
    } else {
      hide Moved, Square;
      var init, x := xs[..|xs| - 1], xs[|xs| - 1];
      SpreadShifts(init, c, e);
      assert |xs| as real == |init| as real + 1.0;
      MovedOne(Spread(init, e), Total(init), |init| as real, x, c, e);
    }
  }

  // The algebra of one more value.
  lemma MovedOne(s: real, t: real, n: real, x: real, c: real, e: real)
    ensures Moved(s, t, n, c, e) + Square(x - c) == Moved(s + Square(x - e), t + x, n + 1.0, c, e)
  {
  }

  lemma MeanTimes(xs: seq<real>)
    ensures (|xs| as real) * Mean(xs) == Total(xs)
  {
  }

  // About the mean the cross term vanishes.
  lemma SpreadAboutMean(xs: seq<real>, c: real)
    ensures Spread(xs, c) == Spread(xs, Mean(xs)) + (|xs| as real) * ((Mean(xs) - c) * (Mean(xs) - c))
  {
    hide Spread, Mean, Total;
    SpreadShifts(xs, c, Mean(xs));
    MeanTimes(xs);
    var k, gap := Mean(xs) - c, Total(xs) - (|xs| as real) * Mean(xs);
    assert gap == 0.0;
    assert k * gap == 0.0;
  }

  // The mean of a concatenation from the means of its parts.
  lemma MeanMerge(xs: seq<real>, ys: seq<real>)
    requires xs + ys != []
    ensures MergedMean(Moments(xs), Moments(ys)) == Mean(xs + ys)
  {
    hide Spread;
    TotalThen(xs, ys);
    MeanTimes(xs);
    MeanTimes(ys);
  }

  lemma SpreadMerge(xs: seq<real>, ys: seq<real>, c: real)
    ensures MergedSpread(Moments(xs), Moments(ys), c) == Spread(xs + ys, c)
  {
    hide Spread, Mean;
    SpreadThen(xs, ys, c);
    SpreadAboutMean(xs, c);
    SpreadAboutMean(ys, c);
  }

  // The parallel formula is the moments of the concatenation.
  lemma MomentsMerge(xs: seq<real>, ys: seq<real>)
    ensures MergeM2(Moments(xs), Moments(ys)) == Moments(xs + ys)
  {
    if xs + ys != [] {
      hide Spread, Mean, MergedMean, MergedSpread;
      MeanMerge(xs, ys);
      SpreadMerge(xs, ys, Mean(xs + ys));
    }
  }

  // Merging the states of two batches is the state of both together, the empty batch included.
  lemma PartialThen(f: Fn, vs: seq<Maybe>, ws: seq<Maybe>)
    ensures Merge2(f, Partial(f, vs), Partial(f, ws)) == Partial(f, vs + ws)
  {
    ValidThen(vs, ws);
    var xs, ys := Valid(vs), Valid(ws);
    match f
    case Sum =>
      TotalThen(xs, ys);
    case MinOf => ExtremesThen(xs, ys);
    case MaxOf => ExtremesThen(xs, ys);
    case Count =>
    case Welford => MomentsMerge(xs, ys);
  }

  // ------------------------------------------------------------ the empty state

  // The row a keyless node owes over no rows.
  function EmptyState(f: Fn): Moment {
    match f
    case Count => Counted(0)
    case Welford => Welf(0, 0.0, 0.0)
    case Sum => One(NoValue)
    case MinOf => One(NoValue)
    case MaxOf => One(NoValue)
  }

  // It is the partial state over no rows, and merging it changes no state a batch can have.
  lemma EmptyStateIsNeutral(f: Fn, vs: seq<Maybe>)
    ensures EmptyState(f) == Partial(f, [])
    ensures Merge2(f, Partial(f, vs), EmptyState(f)) == Partial(f, vs) == Merge2(f, EmptyState(f), Partial(f, vs))
  {
  }

  // ------------------------------------------------------------ order does not matter

  lemma PartialSwaps(f: Fn, vs: seq<Maybe>, ws: seq<Maybe>)
    ensures Partial(f, vs + ws) == Partial(f, ws + vs)
  {
    PartialThen(f, vs, ws);
    PartialThen(f, ws, vs);
    hide Valid, Total, Least, Greatest, Spread, Mean;
    if f == Welford {
      var a, b := Partial(f, vs), Partial(f, ws);
      assert MergeM2(a, b) == MergeM2(b, a);
    }
  }

  lemma {:induction false} PartialPermutes(f: Fn, vs: seq<Maybe>, ws: seq<Maybe>)
    requires multiset(vs) == multiset(ws)
    ensures Partial(f, vs) == Partial(f, ws)
    decreases |vs|
  {
    hide Partial, Merge2;
    if vs == [] {
      assert |multiset(ws)| == 0;
    } else {
      var init, x := vs[..|vs| - 1], vs[|vs| - 1];
      var a, b := PullOut(vs, ws);
      PartialPermutes(f, init, b + a);
      PartialSwaps(f, a, [x] + b);
      assert [x] + b + a == [x] + (b + a);
      PartialSwaps(f, [x], b + a);
      PartialThen(f, b + a, [x]);
      PartialThen(f, init, [x]);
    }
  }

  // ------------------------------------------------------------ the algebra of states

  // A state some batch of values has.
  ghost predicate IsState(f: Fn, s: Moment) {
    exists vs :: s == Partial(f, vs)
  }

  // The states of a function are a commutative monoid, being an image of lists of values.
  lemma StatesMerge(f: Fn, a: Moment, b: Moment)
    requires IsState(f, a) && IsState(f, b)
    ensures Fits(f, a) && Fits(f, b)
    ensures IsState(f, Merge2(f, a, b)) && Merge2(f, a, b) == Merge2(f, b, a)
  {
    hide Valid, Total, Least, Greatest, Spread, Mean, Merge2;
    var vs :| a == Partial(f, vs);
    var ws :| b == Partial(f, ws);
    PartialThen(f, vs, ws);
    PartialThen(f, ws, vs);
    PartialSwaps(f, vs, ws);
  }

  lemma StatesRegroup(f: Fn, a: Moment, b: Moment, c: Moment)
    requires IsState(f, a) && IsState(f, b) && IsState(f, c)
    ensures Fits(f, a) && Fits(f, b) && Fits(f, c)
    ensures Fits(f, Merge2(f, a, b)) && Fits(f, Merge2(f, b, c))
    ensures Merge2(f, Merge2(f, a, b), c) == Merge2(f, a, Merge2(f, b, c))
  {
    hide Valid, Total, Least, Greatest, Spread, Mean, Merge2;
    var vs :| a == Partial(f, vs);
    var ws :| b == Partial(f, ws);
    var xs :| c == Partial(f, xs);
    PartialThen(f, vs, ws);
    PartialThen(f, ws, xs);
    PartialThen(f, vs + ws, xs);
    PartialThen(f, vs, ws + xs);
    assert vs + ws + xs == vs + (ws + xs);
  }

  ghost predicate AllStates(f: Fn, ss: seq<Moment>) {
    forall s :: s in ss ==> IsState(f, s)
  }

  // The merge phase over a group's states, in table order.
  function MergeAll(f: Fn, ss: seq<Moment>): (r: Moment)
    requires ss != [] && forall s :: s in ss ==> Fits(f, s)
    ensures Fits(f, r)
  {
    if |ss| == 1 then assert ss[0] in ss; ss[0]
    else
      assert ss[|ss| - 1] in ss;
      Merge2(f, MergeAll(f, ss[..|ss| - 1]), ss[|ss| - 1])
  }

  lemma {:induction false} MergeAllThen(f: Fn, ss: seq<Moment>, ts: seq<Moment>)
    requires ss != [] && ts != [] && AllStates(f, ss) && AllStates(f, ts)
    ensures forall s :: s in ss + ts ==> Fits(f, s)
    ensures IsState(f, MergeAll(f, ss)) && IsState(f, MergeAll(f, ts))
    ensures MergeAll(f, ss + ts) == Merge2(f, MergeAll(f, ss), MergeAll(f, ts))
    decreases |ss| + |ts|
  {
    hide Partial, Merge2, IsState;
    MergeAllIsState(f, ss);
    MergeAllIsState(f, ts);
    var n := |ts| - 1;
    assert (ss + ts)[..|ss + ts| - 1] == ss + ts[..n];
    assert ts[n] in ts;
    if n == 0 {
      assert ss + ts[..n] == ss;
    } else {
      MergeAllThen(f, ss, ts[..n]);
      StatesRegroup(f, MergeAll(f, ss), MergeAll(f, ts[..n]), ts[n]);
    }
  }

  lemma {:induction false} MergeAllIsState(f: Fn, ss: seq<Moment>)
    requires ss != [] && AllStates(f, ss)
    ensures forall s :: s in ss ==> Fits(f, s)
    ensures IsState(f, MergeAll(f, ss))
    decreases |ss|
  {
    hide Partial, Merge2;
    forall s | s in ss
      ensures Fits(f, s)
    {
      StatesMerge(f, s, s);
    }
    assert ss[|ss| - 1] in ss;
    if |ss| > 1 {
      MergeAllIsState(f, ss[..|ss| - 1]);
      StatesMerge(f, MergeAll(f, ss[..|ss| - 1]), ss[|ss| - 1]);
    }
  }

  lemma MergeAllSwaps(f: Fn, ss: seq<Moment>, ts: seq<Moment>)
    requires ss + ts != [] && AllStates(f, ss) && AllStates(f, ts)
    ensures forall s :: s in ss + ts ==> Fits(f, s)
    ensures forall s :: s in ts + ss ==> Fits(f, s)
    ensures MergeAll(f, ss + ts) == MergeAll(f, ts + ss)
  {
    hide Partial, Merge2, IsState, MergeAll;
    MergeAllIsState(f, ss + ts);
    if ss == [] || ts == [] {
      assert ss + ts == ts + ss;
    } else {
      MergeAllThen(f, ss, ts);
      MergeAllThen(f, ts, ss);
      StatesMerge(f, MergeAll(f, ss), MergeAll(f, ts));
    }
  }

  // The device may meet the states in any order.
  lemma {:induction false} MergeAllPermutes(f: Fn, ss: seq<Moment>, ts: seq<Moment>)
    requires ss != [] && AllStates(f, ss) && multiset(ss) == multiset(ts)
    ensures ts != [] && AllStates(f, ts)
    ensures (forall s :: s in ss ==> Fits(f, s)) && forall s :: s in ts ==> Fits(f, s)
    ensures MergeAll(f, ss) == MergeAll(f, ts)
    decreases |ss|
  {
    hide Partial, Merge2, IsState, MergeAll;
    var init, x := ss[..|ss| - 1], ss[|ss| - 1];
    var a, b := PullOut(ss, ts);
    forall s | s in ts
      ensures IsState(f, s)
    {
      assert s in multiset(ss);
    }
    MergeAllIsState(f, ss);
    MergeAllIsState(f, ts);
    MergeAllSwaps(f, a, [x] + b);
    assert [x] + b + a == [x] + (b + a);
    MergeAllSwaps(f, [x], b + a);
    assert b + a + [x] == b + (a + [x]);
    if init == [] {
      assert |multiset(b + a)| == 0;
      assert b + a == [];
    } else {
      assert b + a != [];
      MergeAllPermutes(f, init, b + a);
      MergeAllThen(f, init, [x]);
      MergeAllThen(f, b + a, [x]);
    }
  }
}
