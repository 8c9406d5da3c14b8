/**
  Whole aggregations: a partial phase over each batch, then merges along any tree, every table in
  whatever order the device left it. Whatever the tree, the answer is that of one partial phase
  over all the rows.
 */
module AggregateRuns {
  import opened Tables
  import opened JoinResidual
  import opened Aggregate
  import opened Groups
  import opened GroupCells
  import opened AggregateNode

  // ------------------------------------------------------------ the plan's two nodes

  // The partial node: function i reads column i.
  function PartialFuncs(fns: seq<Fn>): (fs: seq<Func>)
    ensures |fs| == |fns|
  {
    seq(|fns|, i requires 0 <= i < |fns| => Func(fns[i], [i], Width(fns[i])))
  }

  function WidthOf(fns: seq<Fn>): nat {
    if fns == [] then 0 else WidthOf(fns[..|fns| - 1]) + Width(fns[|fns| - 1])
  }

  // The merge of the state columns that start at `at`; a count's state merges with `sum`.
  function MergeFunc(f: Fn, at: nat): Func {
    if f == Welford then Func(Welford, [at, at + 1, at + 2], 3)
    else Func(if f == Count then Sum else f, [at], 1)
  }

  function MergeFuncs(fns: seq<Fn>): seq<Func> {
    if fns == [] then []
    else
      var init := fns[..|fns| - 1];
      MergeFuncs(init) + [MergeFunc(fns[|fns| - 1], WidthOf(init))]
  }

  // Neither node is ever refused for its functions' shapes.
  lemma {:induction false} PlannedShapes(fns: seq<Fn>)
    ensures forall f :: f in PartialFuncs(fns) ==> Shaped(f, AtPartial)
    ensures forall f :: f in MergeFuncs(fns) ==> Shaped(f, AtMerge)
    decreases |fns|
  {
    if fns != [] {
      PlannedShapes(fns[..|fns| - 1]);
    }
  }

  function FlatStates(states: seq<Moment>): Cells {
    if states == [] then [] else FlatStates(states[..|states| - 1]) + Flat(states[|states| - 1])
  }

  function FlatCells(): OutRow -> Cells {
    (r: OutRow) => FlatStates(r.states)
  }

  function FlatRow(): OutRow -> InRow {
    (r: OutRow) => InRow(r.key, FlatStates(r.states))
  }

  // ------------------------------------------------------------ the partial node

  function PartialsOf(fns: seq<Fn>, g: seq<Cells>): (s: seq<Moment>)
    ensures |s| == |fns| && forall i :: 0 <= i < |fns| ==> s[i] == Partial(fns[i], Map(CellAt(i), g))
  {
    seq(|fns|, i requires 0 <= i < |fns| => Partial(fns[i], Map(CellAt(i), g)))
  }

  lemma {:induction false} PartialAnswers(fns: seq<Fn>, g: seq<Cells>)
    ensures Answers(PartialFuncs(fns), AtPartial, g) == FlatStates(PartialsOf(fns, g))
    decreases |fns|
  {
    hide Partial;
    if fns != [] {
      var n := |fns| - 1;
      PartialAnswers(fns[..n], g);
      assert PartialFuncs(fns)[..n] == PartialFuncs(fns[..n]);
      assert PartialsOf(fns, g)[..n] == PartialsOf(fns[..n], g);
      assert Nth([n], 0) == n;
    }
  }

  // What the partial node answers lists the groups' states.
  lemma PartialLists(fns: seq<Fn>, t: seq<InRow>, rows: seq<InRow>) returns (table: seq<OutRow>)
    requires Aggregates(PartialFuncs(fns), AtPartial, t, rows)
    ensures t == Map(FlatRow(), table) && Lists(table, GroupPartial(fns, rows))
  {
    hide Partial, Answers, Where;
    table := seq(|t|, j requires 0 <= j < |t| => OutRow(t[j].key, StatesOf(fns, rows, t[j].key)));
    forall j | 0 <= j < |t|
      ensures t[j] == FlatRow()(table[j])
    {
      var k := t[j].key;
      assert t[j] in t;
      PartialAnswers(fns, CellsOf(rows, k));
      assert forall i :: 0 <= i < |fns| ==> Map(CellAt(i), CellsOf(rows, k)) == Column(rows, k, i);
      assert PartialsOf(fns, CellsOf(rows, k)) == StatesOf(fns, rows, k);
    }
    KeysOfRows(t, table);
  }

  lemma KeysOfRows(t: seq<InRow>, table: seq<OutRow>)
    requires |t| == |table| && forall j :: 0 <= j < |t| ==> t[j].key == table[j].key
    ensures KeySet(t) == OutKeys(table)
  {
  }

  // ------------------------------------------------------------ the merge node

  // A state's columns lie where the merge node looks for them.
  lemma {:induction false} FlatAt(fns: seq<Fn>, states: seq<Moment>, i: nat, j: nat)
    requires |states| == |fns| && forall k :: 0 <= k < |fns| ==> Fits(fns[k], states[k])
    requires i < |fns| ==> j < Width(fns[i])
    ensures |FlatStates(states)| == WidthOf(fns)
    ensures i < |fns| ==> Fits(fns[i], states[i]) && |Flat(states[i])| == Width(fns[i])
    ensures i < |fns| ==> WidthOf(fns[..i]) + j < WidthOf(fns)
    ensures i < |fns| ==> FlatStates(states)[WidthOf(fns[..i]) + j] == Flat(states[i])[j]
    decreases |fns|
  {
    if fns != [] {
      hide Flat, Fits, Width;
      var n := |fns| - 1;
      FlatWidth(fns[n], states[n]);
      FlatAt(fns[..n], states[..n], i, j);
      if i < n {
        assert fns[..n][..i] == fns[..i];
      }
    }
  }

  lemma FlatWidth(f: Fn, s: Moment)
    requires Fits(f, s)
    ensures |Flat(s)| == Width(f)
  {
  }

  function ValueOf(): Moment -> Maybe {
    (s: Moment) => if s.One? then s.value else if s.Counted? then Val(s.n as real) else NoValue
  }

  // Sums and extremes of states are those of the values the states hold.
  lemma {:induction false} ValuesMerge(f: Fn, ss: seq<Moment>)
    requires f.Sum? || f.MinOf? || f.MaxOf?
    requires ss != [] && forall s :: s in ss ==> Fits(f, s)
    ensures Partial(f, Map(ValueOf(), ss)) == MergeAll(f, ss)
    decreases |ss|
  {
    var n := |ss| - 1;
    var vs, v := Map(ValueOf(), ss[..n]), ValueOf()(ss[n]);
    assert ss[n] in ss;
    OneValue(f, v);
    if n == 0 {
      assert Map(ValueOf(), ss) == [v];
    } else {
      ValuesMerge(f, ss[..n]);
      assert Map(ValueOf(), ss) == vs + [v];
      PartialThen(f, vs, [v]);
    }
  }

  lemma OneValue(f: Fn, v: Maybe)
    requires f.Sum? || f.MinOf? || f.MaxOf?
    ensures Partial(f, [v]) == One(v)
  {
    hide Valid, Total, Least, Greatest, Spread, Mean, Moments;
    OnlyValue(v);
    if v.Val? {
      OnlyReal(v.x);
    } else {
      NoReals();
    }
  }

  lemma OnlyValue(v: Maybe)
    ensures Valid([v]) == if v.Val? then [v.x] else []
  {
  }

  lemma NoReals()
    ensures Total([]) == 0.0 && Least([]) == NoValue == Greatest([])
  {
  }

  lemma OnlyReal(x: real)
    ensures Total([x]) == x && Least([x]) == Val(x) == Greatest([x])
  {
  }

  // A count's states merge by their sum.
  lemma {:induction false} CountsMerge(ss: seq<Moment>)
    requires ss != [] && forall s :: s in ss ==> s.Counted?
    ensures Flat(Partial(Sum, Map(ValueOf(), ss))) == Flat(MergeAll(Count, ss))
    decreases |ss|
  {
    var init, last := ss[..|ss| - 1], ss[|ss| - 1];
    assert last in ss && ss == init + [last];
    var vs, v := Map(ValueOf(), init), ValueOf()(last);
    OneValue(Sum, v);
    MapLast(ValueOf(), ss);
    if init == [] {
      LoneCount(ss);
    } else {
      CountsMerge(init);
      hide *;
      PartialThen(Sum, vs, [v]);
      MergeAllLast(Count, ss);
      CountAdds(MergeAll(Count, init), Partial(Sum, vs), last);
    }
  }

  lemma LoneCount(ss: seq<Moment>)
    requires |ss| == 1 && ss[0].Counted?
    requires Partial(Sum, [ValueOf()(ss[0])]) == One(ValueOf()(ss[0]))
    ensures forall s :: s in ss ==> s.Counted?
    ensures Flat(Partial(Sum, Map(ValueOf(), ss))) == Flat(MergeAll(Count, ss))
  {
    hide Partial;
    assert Map(ValueOf(), ss) == [ValueOf()(ss[0])];
  }

  lemma MergeAllLast(f: Fn, ss: seq<Moment>)
    requires |ss| > 1 && forall s :: s in ss ==> Fits(f, s)
    ensures ss[|ss| - 1] in ss && forall s :: s in ss[..|ss| - 1] ==> Fits(f, s)
    ensures MergeAll(f, ss) == Merge2(f, MergeAll(f, ss[..|ss| - 1]), ss[|ss| - 1])
  {
  }

  lemma CountAdds(a: Moment, held: Moment, b: Moment)
    requires a.Counted? && b.Counted? && Fits(Sum, held) && Flat(held) == Flat(a)
    ensures Flat(Merge2(Sum, held, One(ValueOf()(b)))) == Flat(Merge2(Count, a, b))
  {
    assert held.value == [held.value][0] == Val(a.n as real);
  }

  // A merged state of no values is the one the device's NULLs are read back as.
  lemma MomentsMerged(ss: seq<Moment>)
    requires ss != [] && AllStates(Welford, ss)
    ensures forall s :: s in ss ==> s.Welf?
    ensures Merged(ss) == MergeAll(Welford, ss)
  {
    MergeAllIsState(Welford, ss);
    assert IsState(Welford, MergeAll(Welford, ss));
    var vs :| MergeAll(Welford, ss) == Partial(Welford, vs);
  }

  lemma MergeAnswer(fns: seq<Fn>, rows: seq<OutRow>, i: nat)
    requires RealTable(fns, rows) && rows != [] && i < |fns|
    ensures var ss := Map(StateAt(i), rows);
            && (forall s :: s in ss ==> Fits(fns[i], s))
            && Answer(MergeFunc(fns[i], WidthOf(fns[..i])), AtMerge, Map(FlatCells(), rows))
              == Flat(MergeAll(fns[i], ss))
  {
    hide Partial, MergeAll, Merged, FlatStates, WidthOf;
    var f, ss, at := fns[i], Map(StateAt(i), rows), WidthOf(fns[..i]);
    var g := Map(FlatCells(), rows);
    forall k | 0 <= k < |rows|
      ensures IsState(f, ss[k]) && Fits(f, ss[k])
      ensures forall j :: 0 <= j < Width(f) ==> CellAt(at + j)(g[k]) == Flat(ss[k])[j]
    {
      RowAt(fns, rows, i, k);
    }
    if f == Welford {
      MomentsMerged(ss);
      StructsRead(g, ss, at);
    } else {
      assert Map(CellAt(at), g) == Map(ValueOf(), ss) by {
        forall k | 0 <= k < |rows|
          ensures CellAt(at)(g[k]) == ValueOf()(ss[k])
        {
          assert CellAt(at + 0)(g[k]) == Flat(ss[k])[0];
        }
      }
      assert Nth([at], 0) == at;
      if f == Count {
        CountsMerge(ss);
      } else {
        ValuesMerge(f, ss);
      }
    }
  }

  lemma RowAt(fns: seq<Fn>, rows: seq<OutRow>, i: nat, k: nat)
    requires RealTable(fns, rows) && i < |fns| && k < |rows|
    ensures IsState(fns[i], StateAt(i)(rows[k])) && Fits(fns[i], StateAt(i)(rows[k]))
    ensures forall j :: 0 <= j < Width(fns[i]) ==>
              CellAt(WidthOf(fns[..i]) + j)(FlatStates(rows[k].states)) == Flat(StateAt(i)(rows[k]))[j]
  {
    hide Partial;
    assert RealRow(fns, rows[k]);
    forall m | 0 <= m < |fns|
      ensures Fits(fns[m], rows[k].states[m])
    {
      StatesMerge(fns[m], rows[k].states[m], rows[k].states[m]);
    }
    forall j | 0 <= j < Width(fns[i])
      ensures CellAt(WidthOf(fns[..i]) + j)(FlatStates(rows[k].states)) == Flat(StateAt(i)(rows[k]))[j]
    {
      FlatAt(fns, rows[k].states, i, j);
    }
  }

  lemma StructsRead(g: seq<Cells>, ss: seq<Moment>, at: nat)
    requires |g| == |ss| && forall k :: 0 <= k < |ss| ==> ss[k].Welf?
    requires forall k :: 0 <= k < |ss| ==> forall j :: 0 <= j < 3 ==> CellAt(at + j)(g[k]) == Flat(ss[k])[j]
    ensures Map(StructAt([at, at + 1, at + 2]), g) == ss
  {
    var values := [at, at + 1, at + 2];
    assert Nth(values, 0) == at && Nth(values, 1) == at + 1 && Nth(values, 2) == at + 2;
    forall k | 0 <= k < |ss|
      ensures StructAt([at, at + 1, at + 2])(g[k]) == ss[k]
    {
      assert CellAt(at + 0)(g[k]) == Flat(ss[k])[0];
      assert CellAt(at + 1)(g[k]) == Flat(ss[k])[1];
      assert CellAt(at + 2)(g[k]) == Flat(ss[k])[2];
    }
  }

  // The merged states of one group, function by function.
  ghost function MergedStates(fns: seq<Fn>, rows: seq<OutRow>): (s: seq<Moment>)
    requires RealTable(fns, rows) && rows != []
    ensures |s| == |fns|
  {
    seq(|fns|, i requires 0 <= i < |fns| =>
      MergeAnswer(fns, rows, i);
      MergeAll(fns[i], Map(StateAt(i), rows)))
  }

  lemma {:induction false} MergeAnswers(fns: seq<Fn>, rows: seq<OutRow>, n: nat)
    requires RealTable(fns, rows) && rows != [] && n <= |fns|
    ensures Answers(MergeFuncs(fns[..n]), AtMerge, Map(FlatCells(), rows)) == FlatStates(MergedStates(fns, rows)[..n])
  {
    if n > 0 {
      hide *;
      var at := n - 1;
      MergeAnswers(fns, rows, at);
      MergeAnswer(fns, rows, at);
      MergedAt(fns, rows, at);
      assert fns[..n][..at] == fns[..at];
      AnswersNext(fns[..n], Map(FlatCells(), rows));
      FlatNext(MergedStates(fns, rows), at);
    } else {
      assert fns[..0] == [] && MergedStates(fns, rows)[..0] == [];
    }
  }

  lemma MergedAt(fns: seq<Fn>, rows: seq<OutRow>, i: nat)
    requires RealTable(fns, rows) && rows != [] && i < |fns|
    requires forall s :: s in Map(StateAt(i), rows) ==> Fits(fns[i], s)
    ensures MergedStates(fns, rows)[i] == MergeAll(fns[i], Map(StateAt(i), rows))
  {
  }

  lemma AnswersNext(fns: seq<Fn>, g: seq<Cells>)
    requires fns != []
    ensures var init := fns[..|fns| - 1];
            Answers(MergeFuncs(fns), AtMerge, g) ==
            Answers(MergeFuncs(init), AtMerge, g) + Answer(MergeFunc(fns[|fns| - 1], WidthOf(init)), AtMerge, g)
  {
  }

  lemma FlatNext(states: seq<Moment>, i: nat)
    requires i < |states|
    ensures FlatStates(states[..i + 1]) == FlatStates(states[..i]) + Flat(states[i])
  {
    assert states[..i + 1][..i] == states[..i];
  }

  // What the merge node answers lists the merged groups.
  lemma MergeLists(fns: seq<Fn>, t: seq<InRow>, input: seq<OutRow>) returns (table: seq<OutRow>)
    requires RealTable(fns, input)
    requires Aggregates(MergeFuncs(fns), AtMerge, t, Map(FlatRow(), input))
    ensures t == Map(FlatRow(), table) && Lists(table, GroupMerge(fns, input))
  {
    hide Partial, Answers, Where, FlatStates, RealRow, CellsOf;
    KeysOfRows(Map(FlatRow(), input), input);
    forall j | 0 <= j < |t|
      ensures t[j].key in OutKeys(input)
    {
      assert t[j] in t;
      assert t[j].key in KeySet(t);
    }
    var g := GroupMerge(fns, input);
    table := seq(|t|, j requires 0 <= j < |t| => OutRow(t[j].key, g[t[j].key]));
    forall j | 0 <= j < |t|
      ensures t[j] == FlatRow()(table[j])
    {
      assert t[j] in t;
      MergedGroup(fns, input, t[j].key);
    }
    KeysOfRows(t, table);
  }

  lemma MergedGroup(fns: seq<Fn>, input: seq<OutRow>, k: Row)
    requires RealTable(fns, input) && k in OutKeys(input)
    ensures Answers(MergeFuncs(fns), AtMerge, CellsOf(Map(FlatRow(), input), k))
              == FlatStates(GroupMerge(fns, input)[k])
  {
    hide Partial, Answers, FlatStates, MergeAll;
    var rows := Where(OutHasKey(k), input);
    WhereMap(FlatRow(), HasKey(k), OutHasKey(k), input);
    assert CellsOf(Map(FlatRow(), input), k) == Map(FlatCells(), rows);
    forall r | r in rows
      ensures RealRow(fns, r)
    {
      WhereHolds(OutHasKey(k), input, r);
    }
    var r :| r in input && r.key == k;
    WhereHolds(OutHasKey(k), input, r);
    MergeAnswers(fns, rows, |fns|);
    assert fns[..|fns|] == fns;
    var m := MergedStates(fns, rows);
    assert m[..|fns|] == m;
    forall i | 0 <= i < |fns|
      ensures m[i] == GroupMerge(fns, input)[k][i]
    {
      GroupMergeAt(fns, input, k, i);
    }
    assert m == GroupMerge(fns, input)[k];
  }

  // ------------------------------------------------------------ any tree of merges

  datatype Plan = Batch(rows: seq<InRow>) | MergeOf(children: seq<Plan>)

  function RowsOf(plan: Plan): seq<InRow> {
    match plan
    case Batch(rows) => rows
    case MergeOf(children) => RowsOfAll(children)
  }

  function RowsOfAll(plans: seq<Plan>): seq<InRow> {
    if plans == [] then [] else RowsOfAll(plans[..|plans| - 1]) + RowsOf(plans[|plans| - 1])
  }

  // A run of the plan that ends in `t`: each batch through the partial node, and each merge over
  // its children's tables brought together in any order.
  ghost predicate Yields(fns: seq<Fn>, plan: Plan, t: seq<InRow>) {
    match plan
    case Batch(rows) => Aggregates(PartialFuncs(fns), AtPartial, t, rows)
    case MergeOf(children) =>
      exists tables, input ::
        && YieldAll(fns, children, tables)
        && multiset(input) == multiset(Concat(tables))
        && Aggregates(MergeFuncs(fns), AtMerge, t, input)
  }

  ghost predicate YieldAll(fns: seq<Fn>, plans: seq<Plan>, tables: seq<seq<InRow>>) {
    && |plans| == |tables|
    && (plans == [] ||
        (YieldAll(fns, plans[..|plans| - 1], tables[..|plans| - 1]) &&
         Yields(fns, plans[|plans| - 1], tables[|plans| - 1])))
  }

  function FirstColumns(n: nat): (cols: seq<nat>)
    ensures |cols| == n && forall i :: 0 <= i < n ==> cols[i] == i
  {
    seq(n, i requires 0 <= i < n => i)
  }

  // States held as columns are what the rows of their group say.
  lemma {:induction false} FlatHold(fns: seq<Fn>, rows: seq<InRow>, k: Row, n: nat)
    requires n <= |fns|
    ensures HoldsStates(fns[..n], FirstColumns(n), rows, k, FlatStates(StatesOf(fns, rows, k)[..n]))
    decreases n
  {
    if n == 0 {
      NothingHeld(rows, k);
      assert fns[..0] == [] && FirstColumns(0) == [] && StatesOf(fns, rows, k)[..0] == [];
    } else {
      FlatHold(fns, rows, k, n - 1);
      hide *;
      FlatHoldNext(fns, rows, k, n - 1);
    }
  }

  lemma FlatHoldNext(fns: seq<Fn>, rows: seq<InRow>, k: Row, i: nat)
    requires i < |fns|
    requires HoldsStates(fns[..i], FirstColumns(i), rows, k, FlatStates(StatesOf(fns, rows, k)[..i]))
    ensures HoldsStates(fns[..i + 1], FirstColumns(i + 1), rows, k, FlatStates(StatesOf(fns, rows, k)[..i + 1]))
  {
    hide *;
    var states := StatesOf(fns, rows, k);
    OneMoreHeld(fns[..i], FirstColumns(i), rows, k, FlatStates(states[..i]), fns[i], i);
    FlatNext(states, i);
    assert states[i] == Partial(fns[i], Column(rows, k, i));
    assert fns[..i + 1] == fns[..i] + [fns[i]];
    assert FirstColumns(i + 1) == FirstColumns(i) + [i];
  }

  lemma StatesHold(fns: seq<Fn>, rows: seq<InRow>, k: Row)
    ensures HoldsStates(fns, FirstColumns(|fns|), rows, k, FlatStates(StatesOf(fns, rows, k)))
  {
    hide HoldsStates, FlatStates;
    var states := StatesOf(fns, rows, k);
    FlatHold(fns, rows, k, |fns|);
    assert fns[..|fns|] == fns && states[..|fns|] == states;
  }

  // Listed groups are what the rows say, group by group.
  lemma ListedHold(fns: seq<Fn>, table: seq<OutRow>, rows: seq<InRow>)
    requires Lists(table, GroupPartial(fns, rows))
    ensures HoldsGroups(fns, FirstColumns(|fns|), Map(FlatRow(), table), rows)
  {
    hide HoldsStates, StatesOf, FlatStates;
    var t := Map(FlatRow(), table);
    KeysOfRows(t, table);
    SameKeySets(t, rows);
    forall r | r in t
      ensures HoldsStates(fns, FirstColumns(|fns|), rows, r.key, r.args)
    {
      var j :| 0 <= j < |t| && t[j] == r;
      assert table[j] in table;
      StatesHold(fns, rows, r.key);
    }
  }

  // Every run of every plan answers the states one partial phase over all its rows would have
  // answered, however the rows were batched and the merges arranged: one row for each key, its
  // cells what all the rows of that key say.
  lemma {:induction false} AnyMergeTree(fns: seq<Fn>, plan: Plan, t: seq<InRow>) returns (table: seq<OutRow>)
    requires Yields(fns, plan, t)
    ensures t == Map(FlatRow(), table) && Lists(table, GroupPartial(fns, RowsOf(plan)))
    ensures HoldsGroups(fns, FirstColumns(|fns|), t, RowsOf(plan))
    decreases plan
  {
    hide HoldsGroups;
    match plan
    case Batch(rows) =>
      table := PartialLists(fns, t, rows);
      ListedHold(fns, table, rows);
    case MergeOf(children) =>
      var tables, input :|
        && YieldAll(fns, children, tables)
        && multiset(input) == multiset(Concat(tables))
        && Aggregates(MergeFuncs(fns), AtMerge, t, input);
      var carried := AllCarried(fns, children, tables);
      var states := Unmapped(FlatRow(), carried, input);
      CarriesPermutes(fns, carried, states, RowsOfAll(children));
      table := MergeLists(fns, t, states);
      ListedHold(fns, table, RowsOfAll(children));
  }

  lemma {:induction false} AllCarried(fns: seq<Fn>, plans: seq<Plan>, tables: seq<seq<InRow>>)
    returns (carried: seq<OutRow>)
    requires YieldAll(fns, plans, tables)
    ensures Concat(tables) == Map(FlatRow(), carried) && Carries(fns, carried, RowsOfAll(plans))
    decreases plans
  {
    hide Carries, Aggregates, Lists, Yields;
    if plans == [] {
      carried := [];
      NothingCarries(fns);
    } else {
      var n := |plans| - 1;
      var before := AllCarried(fns, plans[..n], tables[..n]);
      var last := AnyMergeTree(fns, plans[n], tables[n]);
      PartialCarries(fns, last, RowsOf(plans[n]));
      CarriesThen(fns, before, last, RowsOfAll(plans[..n]), RowsOf(plans[n]));
      MapThen(FlatRow(), before, last);
      carried := before + last;
    }
  }

  lemma NothingCarries(fns: seq<Fn>)
    ensures Carries(fns, [], [])
  {
  }

  // ------------------------------------------------------------ no keys

  // The one row of states a keyless partial node answers for a batch.
  function KeylessRow(fns: seq<Fn>): seq<Cells> -> OutRow {
    (g: seq<Cells>) => OutRow([], PartialsOf(fns, g))
  }

  function KeylessPartial(fns: seq<Fn>): seq<Cells> -> Cells {
    (g: seq<Cells>) => Answers(PartialFuncs(fns), AtPartial, g)
  }

  lemma {:induction false} KeylessMerge(fns: seq<Fn>, batches: seq<seq<Cells>>, i: nat)
    requires batches != [] && i < |fns|
    ensures AllStates(fns[i], Map(StateAt(i), Map(KeylessRow(fns), batches)))
    ensures forall s :: s in Map(StateAt(i), Map(KeylessRow(fns), batches)) ==> Fits(fns[i], s)
    ensures MergeAll(fns[i], Map(StateAt(i), Map(KeylessRow(fns), batches)))
              == Partial(fns[i], Map(CellAt(i), Concat(batches)))
    decreases |batches|
  {
    hide Partial, Merge2;
    var f, n := fns[i], |batches| - 1;
    var ss := Map(StateAt(i), Map(KeylessRow(fns), batches));
    forall k | 0 <= k < |ss|
      ensures IsState(f, ss[k])
    {
      assert ss[k] == Partial(f, Map(CellAt(i), batches[k]));
    }
    MergeAllIsState(f, ss);
    MapThen(CellAt(i), Concat(batches[..n]), batches[n]);
    if n > 0 {
      KeylessMerge(fns, batches[..n], i);
      assert ss[..n] == Map(StateAt(i), Map(KeylessRow(fns), batches[..n]));
      PartialThen(f, Map(CellAt(i), Concat(batches[..n])), Map(CellAt(i), batches[n]));
    } else {
      assert Concat(batches) == batches[0] by {
        assert Concat(batches[..0]) == [];
      }
    }
  }

  // Without keys too, merging the rows of any batches, empty ones among them, is the row of all
  // of them together.
  lemma KeylessBatches(fns: seq<Fn>, batches: seq<seq<Cells>>)
    requires batches != []
    ensures Answers(MergeFuncs(fns), AtMerge, Map(KeylessPartial(fns), batches))
            == Answers(PartialFuncs(fns), AtPartial, Concat(batches))
  {
    hide Partial, Answers, MergeAll, FlatStates;
    var rows := Map(KeylessRow(fns), batches);
    forall k | 0 <= k < |rows|
      ensures RealRow(fns, rows[k]) && FlatCells()(rows[k]) == KeylessPartial(fns)(batches[k])
    {
      PartialAnswers(fns, batches[k]);
    }
    assert Map(FlatCells(), rows) == Map(KeylessPartial(fns), batches);
    MergeAnswers(fns, rows, |fns|);
    PartialAnswers(fns, Concat(batches));
    var m := MergedStates(fns, rows);
    assert fns[..|fns|] == fns && m[..|fns|] == m;
    forall i | 0 <= i < |fns|
      ensures m[i] == PartialsOf(fns, Concat(batches))[i]
    {
      KeylessMerge(fns, batches, i);
    }
    assert m == PartialsOf(fns, Concat(batches));
  }

  // A run of a plan without keys that ends in `row`: each batch answers one row, and each merge,
  // which is handed at least one, is over its children's rows in any order.
  ghost predicate KeylessYields(fns: seq<Fn>, plan: Plan, row: Cells) {
    match plan
    case Batch(rows) => row == Answers(PartialFuncs(fns), AtPartial, Map(ArgsOf(), rows))
    case MergeOf(children) =>
      exists rows, input ::
        && children != []
        && KeylessYieldAll(fns, children, rows)
        && multiset(input) == multiset(rows)
        && row == Answers(MergeFuncs(fns), AtMerge, input)
  }

  ghost predicate KeylessYieldAll(fns: seq<Fn>, plans: seq<Plan>, rows: seq<Cells>) {
    && |plans| == |rows|
    && (plans == [] ||
        (KeylessYieldAll(fns, plans[..|plans| - 1], rows[..|plans| - 1]) &&
         KeylessYields(fns, plans[|plans| - 1], rows[|plans| - 1])))
  }

  function CellsOfPlan(): Plan -> seq<Cells> {
    (p: Plan) => Map(ArgsOf(), RowsOf(p))
  }

  // The order of the rows makes no difference to a partial phase without keys.
  lemma KeylessPermutes(fns: seq<Fn>, g: seq<Cells>, h: seq<Cells>)
    requires multiset(g) == multiset(h)
    ensures Answers(PartialFuncs(fns), AtPartial, g) == Answers(PartialFuncs(fns), AtPartial, h)
  {
    hide Partial, Answers, FlatStates, Map;
    PartialAnswers(fns, g);
    PartialAnswers(fns, h);
    forall i | 0 <= i < |fns|
      ensures PartialsOf(fns, g)[i] == PartialsOf(fns, h)[i]
    {
      MapPermutes(CellAt(i), g, h);
      PartialPermutes(fns[i], Map(CellAt(i), g), Map(CellAt(i), h));
    }
    assert PartialsOf(fns, g) == PartialsOf(fns, h);
  }

  // Every run of every plan without keys answers the row one partial phase over all its rows
  // would have answered: any batching, empty batches among them, any tree, any order.
  lemma {:induction false} AnyKeylessTree(fns: seq<Fn>, plan: Plan, row: Cells)
    requires KeylessYields(fns, plan, row)
    ensures row == Answers(PartialFuncs(fns), AtPartial, Map(ArgsOf(), RowsOf(plan)))
    ensures HoldsStates(fns, FirstColumns(|fns|), OneGroup(Map(ArgsOf(), RowsOf(plan))), [], row)
    decreases plan
  {
    PlannedHold(fns, Map(ArgsOf(), RowsOf(plan)));
    hide HoldsStates;
    match plan
    case Batch(rows) =>
    case MergeOf(children) =>
      var rows, input :|
        && children != []
        && KeylessYieldAll(fns, children, rows)
        && multiset(input) == multiset(rows)
        && row == Answers(MergeFuncs(fns), AtMerge, input);
      hide Answers, PartialFuncs, MergeFuncs;
      AllKeyless(fns, children, rows);
      var batches := Map(CellsOfPlan(), children);
      var moved := Unmapped(KeylessPartial(fns), batches, input);
      assert |multiset(moved)| == |children|;
      KeylessBatches(fns, moved);
      ConcatPermutes(moved, batches);
      KeylessPermutes(fns, Concat(moved), Concat(batches));
  }

  lemma PlannedHold(fns: seq<Fn>, g: seq<Cells>)
    ensures HoldsStates(fns, FirstColumns(|fns|), OneGroup(g), [], Answers(PartialFuncs(fns), AtPartial, g))
  {
    hide HoldsStates, Answers, OneGroup;
    KeylessHold(PartialFuncs(fns), AtPartial, g);
    assert Kinds(PartialFuncs(fns)) == fns;
    assert FirstArgs(PartialFuncs(fns)) == FirstColumns(|fns|);
  }

  lemma {:induction false} AllKeyless(fns: seq<Fn>, plans: seq<Plan>, rows: seq<Cells>)
    requires KeylessYieldAll(fns, plans, rows)
    ensures rows == Map(KeylessPartial(fns), Map(CellsOfPlan(), plans))
    ensures Concat(Map(CellsOfPlan(), plans)) == Map(ArgsOf(), RowsOfAll(plans))
    decreases plans
  {
    if plans != [] {
      hide Answers, PartialFuncs, MergeFuncs, KeylessYields, Concat, Map, RowsOf, RowsOfAll;
      var n := |plans| - 1;
      AllKeyless(fns, plans[..n], rows[..n]);
      AnyKeylessTree(fns, plans[n], rows[n]);
      LastKeyless(fns, plans, rows);
    }
  }

  lemma LastKeyless(fns: seq<Fn>, plans: seq<Plan>, rows: seq<Cells>)
    requires plans != [] && |plans| == |rows|
    requires var n := |plans| - 1;
             && rows[..n] == Map(KeylessPartial(fns), Map(CellsOfPlan(), plans[..n]))
             && Concat(Map(CellsOfPlan(), plans[..n])) == Map(ArgsOf(), RowsOfAll(plans[..n]))
             && rows[n] == Answers(PartialFuncs(fns), AtPartial, Map(ArgsOf(), RowsOf(plans[n])))
    ensures rows == Map(KeylessPartial(fns), Map(CellsOfPlan(), plans))
    ensures Concat(Map(CellsOfPlan(), plans)) == Map(ArgsOf(), RowsOfAll(plans))
  {
    hide *;
    var n := |plans| - 1;
    var batches := Map(CellsOfPlan(), plans);
    LastCells(plans);
    MapLast(CellsOfPlan(), plans);
    LoneKeyless(fns, plans[n]);
    assert batches[..n] == Map(CellsOfPlan(), plans[..n]);
    MapLast(KeylessPartial(fns), batches);
    assert rows == rows[..n] + [rows[n]];
  }

  lemma LoneKeyless(fns: seq<Fn>, plan: Plan)
    ensures KeylessPartial(fns)(CellsOfPlan()(plan)) ==
            Answers(PartialFuncs(fns), AtPartial, Map(ArgsOf(), RowsOf(plan)))
  {
  }

  lemma LastCells(plans: seq<Plan>)
    requires plans != []
    ensures var n := |plans| - 1;
            Concat(Map(CellsOfPlan(), plans[..n])) == Map(ArgsOf(), RowsOfAll(plans[..n])) ==>
            Concat(Map(CellsOfPlan(), plans)) == Map(ArgsOf(), RowsOfAll(plans))
  {
    hide RowsOf;
    var n := |plans| - 1;
    assert Map(CellsOfPlan(), plans)[..n] == Map(CellsOfPlan(), plans[..n]);
    MapThen(ArgsOf(), RowsOfAll(plans[..n]), RowsOf(plans[n]));
  }

  // A merge over no rows at all would lose a count: it answers NULL where no rows count 0. Every
  // other function's empty state survives.
  lemma {:induction false} MergeOfNothing(fns: seq<Fn>)
    ensures Answers(MergeFuncs(fns), AtMerge, []) == Answers(PartialFuncs(fns), AtPartial, []) <==> Count !in fns
    ensures |Answers(MergeFuncs(fns), AtMerge, [])| == |Answers(PartialFuncs(fns), AtPartial, [])| == WidthOf(fns)
    decreases |fns|
  {
    if fns != [] {
      var n := |fns| - 1;
      var init, f := fns[..n], fns[n];
      MergeOfNothing(init);
      assert WidthOf(fns) == WidthOf(init) + Width(f);
      hide *;
      AnswersNext(fns, []);
      PartialNext(fns, []);
      LoneMergeOfNothing(f, WidthOf(init), n);
      LastOf(fns, Count);
      SplitEqual(Answers(MergeFuncs(init), AtMerge, []), Answer(MergeFunc(f, WidthOf(init)), AtMerge, []),
                 Answers(PartialFuncs(init), AtPartial, []), Answer(Func(f, [n], Width(f)), AtPartial, []));
    }
  }

  lemma LastOf<T>(xs: seq<T>, x: T)
    requires xs != []
    ensures x in xs <==> x in xs[..|xs| - 1] || x == xs[|xs| - 1]
  {
    assert xs == xs[..|xs| - 1] + [xs[|xs| - 1]];
  }

  lemma PartialNext(fns: seq<Fn>, g: seq<Cells>)
    requires fns != []
    ensures var n := |fns| - 1;
            Answers(PartialFuncs(fns), AtPartial, g) ==
            Answers(PartialFuncs(fns[..n]), AtPartial, g) + Answer(Func(fns[n], [n], Width(fns[n])), AtPartial, g)
  {
    hide Answer;
    var n := |fns| - 1;
    assert PartialFuncs(fns)[..n] == PartialFuncs(fns[..n]);
  }

  lemma LoneMergeOfNothing(f: Fn, at: nat, n: nat)
    ensures var m, p := Answer(MergeFunc(f, at), AtMerge, []), Answer(Func(f, [n], Width(f)), AtPartial, []);
            |m| == |p| == Width(f) && (m == p <==> f != Count)
  {
    assert Map(CellAt(at), []) == [] && Map(CellAt(n), []) == [];
    assert Map(StructAt([at, at + 1, at + 2]), []) == [];
    assert Valid([]) == [];
  }

  lemma SplitEqual<T>(a: seq<T>, b: seq<T>, c: seq<T>, d: seq<T>)
    requires |a| == |c|
    ensures a + b == c + d <==> a == c && b == d
  {
    if a + b == c + d {
      assert a == (a + b)[..|a|] && b == (a + b)[|a|..];
      assert c == (c + d)[..|c|] && d == (c + d)[|c|..];
    }
  }
}
