/**
  The aggregate node. Each function becomes requests to the device's groupby and the state
  columns read back out of their results; the node runs them over its groups, over every grouping
  set, or over the whole table when it has no keys. The methods are proved to answer, per group,
  the states of the algebra in `Aggregate`.

  A table is its rows: the group key, and the other columns as cells. The device works on whole
  columns at a time, which is the same work row by row.
 */
module AggregateNode {
  import opened Tables
  import opened JoinResidual
  import opened Aggregate
  import opened Groups
  import opened GroupCells

  datatype Phase = AtPartial | AtMerge

  // A function of the node: what it runs, the columns it reads, how many state columns it names.
  datatype Func = Func(kind: Fn, args: seq<nat>, states: nat)

  datatype Refusal =
    | CountAtMerge | WrongArgs | WrongStates
    | NullExprsMismatch | MaskMismatch | TooManyKeys | NoInput | NoColumns

  datatype Result<T> = Ok(value: T) | Refused(why: Refusal)

  type Cells = seq<Maybe>

  // ------------------------------------------------------------ requests

  datatype Agg = SUM | MIN | MAX | COUNT | MEAN | M2 | MERGE_M2

  // The columns a request aggregates (three for the struct of MERGE_M2), and how.
  datatype Request = Request(values: seq<nat>, aggs: seq<Agg>)

  datatype Readback = AsIs | CountToInt64 | NullAsZero | MergedChild

  datatype StateColumn = StateColumn(request: nat, result: nat, readback: Readback, child: nat)

  datatype Requests = Requests(requests: seq<Request>, columns: seq<StateColumn>)

  // One group's result of one aggregation.
  datatype Raw = Scalar(v: Maybe) | Struct(count: Maybe, mean: Maybe, m2: Maybe)

  function CellAt(i: nat): Cells -> Maybe {
    (cells: Cells) => if i < |cells| then cells[i] else NoValue
  }

  function OrZero(v: Maybe): real {
    if v.Val? then v.x else 0.0
  }

  function Nth(values: seq<nat>, j: nat): nat {
    if j < |values| then values[j] else 0
  }

  // A row's three moment columns as one struct.
  function StructAt(values: seq<nat>): Cells -> Moment {
    (cells: Cells) =>
      Welf(OrZero(CellAt(Nth(values, 0))(cells)).Floor,
           OrZero(CellAt(Nth(values, 1))(cells)),
           OrZero(CellAt(Nth(values, 2))(cells)))
  }

  function Merged(ss: seq<Moment>): (m: Moment)
    requires forall s :: s in ss ==> s.Welf?
    ensures m.Welf? && (m.count == 0 ==> m == EmptyState(Welford))
  {
    if ss == [] || MergeAll(Welford, ss).count == 0 then EmptyState(Welford) else MergeAll(Welford, ss)
  }

  // What the device answers for a group. MEAN and M2 of no valid value are NULL, and so are the
  // moments MERGE_M2 answers where every count is zero.
  function Device(agg: Agg, values: seq<nat>, g: seq<Cells>): Raw {
    var vs := Map(CellAt(Nth(values, 0)), g);
    var xs := Valid(vs);
    match agg
    case SUM => Scalar(Partial(Sum, vs).value)
    case MIN => Scalar(Partial(MinOf, vs).value)
    case MAX => Scalar(Partial(MaxOf, vs).value)
    case COUNT => Scalar(Val(|xs| as real))
    case MEAN => Scalar(if xs == [] then NoValue else Val(Mean(xs)))
    case M2 => Scalar(if xs == [] then NoValue else Val(Spread(xs, Mean(xs))))
    case MERGE_M2 =>
      var m := Merged(Map(StructAt(values), g));
      if m.count == 0 then Struct(Val(0.0), NoValue, NoValue)
      else Struct(Val(m.count as real), Val(m.mean), Val(m.m2))
  }

  function ZeroForNull(v: Maybe): Maybe {
    Val(OrZero(v))
  }

  function Whole(raw: Raw): Maybe {
    if raw.Scalar? then raw.v else NoValue
  }

  function ChildOf(raw: Raw, child: nat): Maybe {
    if raw.Scalar? then NoValue else if child == 0 then raw.count else if child == 1 then raw.mean else raw.m2
  }

  function ReadBack(c: StateColumn, raw: Raw): Maybe {
    match c.readback
    case AsIs => Whole(raw)
    case CountToInt64 => Whole(raw)
    case NullAsZero => ZeroForNull(Whole(raw))
    case MergedChild => if c.child == 0 then ChildOf(raw, 0) else ZeroForNull(ChildOf(raw, c.child))
  }

  ghost predicate WellIndexed(built: Requests) {
    forall c :: 0 <= c < |built.columns| ==>
      && built.columns[c].request < |built.requests|
      && built.columns[c].result < |built.requests[built.columns[c].request].aggs|
  }

  // The state columns' cells for one group.
  ghost function Computed(built: Requests, g: seq<Cells>): (cells: Cells)
    requires WellIndexed(built)
    ensures |cells| == |built.columns|
  {
    seq(|built.columns|, c requires 0 <= c < |built.columns| =>
      var q := built.requests[built.columns[c].request];
      ReadBack(built.columns[c], Device(q.aggs[built.columns[c].result], q.values, g)))
  }

  // ------------------------------------------------------------ what a function answers

  predicate Shaped(func: Func, phase: Phase) {
    && !(func.kind == Count && phase == AtMerge)
    && |func.args| == (if func.kind == Welford && phase == AtMerge then 3 else 1)
    && func.states == Width(func.kind)
  }

  // The state columns `func` owes a group: at a merge, moments merge and every other state is
  // aggregated like a value.
  function Answer(func: Func, phase: Phase, g: seq<Cells>): Cells
  {
    if func.kind == Welford && phase == AtMerge then Flat(Merged(Map(StructAt(func.args), g)))
    else Flat(Partial(func.kind, Map(CellAt(Nth(func.args, 0)), g)))
  }

  function Answers(funcs: seq<Func>, phase: Phase, g: seq<Cells>): Cells {
    if funcs == [] then []
    else Answers(funcs[..|funcs| - 1], phase, g) + Answer(funcs[|funcs| - 1], phase, g)
  }

  method CheckShape(func: Func, phase: Phase) returns (r: Result<()>)
    ensures r.Ok? <==> Shaped(func, phase)
    ensures r == Refused(CountAtMerge) <==> func.kind == Count && phase == AtMerge
  {
    if func.kind == Count && phase == AtMerge {
      return Refused(CountAtMerge);
    }
    var welford := func.kind == Welford;
    var wantArgs := if welford && phase == AtMerge then 3 else 1;
    if |func.args| != wantArgs {
      return Refused(WrongArgs);
    }
    if func.states != (if welford then 3 else 1) {
      return Refused(WrongStates);
    }
    return Ok(());
  }

  // What some state columns over one request read back.
  ghost function Read(q: Request, cs: seq<StateColumn>, g: seq<Cells>): (cells: Cells)
    requires forall j :: 0 <= j < |cs| ==> cs[j].result < |q.aggs|
    ensures |cells| == |cs|
    ensures forall j :: 0 <= j < |cs| ==> cells[j] == ReadBack(cs[j], Device(q.aggs[cs[j].result], q.values, g))
  {
    seq(|cs|, j requires 0 <= j < |cs| => ReadBack(cs[j], Device(q.aggs[cs[j].result], q.values, g)))
  }

  lemma Appended(into: Requests, q: Request, cs: seq<StateColumn>, g: seq<Cells>)
    requires WellIndexed(into)
    requires forall j :: 0 <= j < |cs| ==> cs[j].request == |into.requests| && cs[j].result < |q.aggs|
    ensures WellIndexed(Requests(into.requests + [q], into.columns + cs))
    ensures Computed(Requests(into.requests + [q], into.columns + cs), g) == Computed(into, g) + Read(q, cs, g)
  {
  }

  // The request and the state columns of one function.
  method RequestOf(func: Func, phase: Phase, r: nat) returns (q: Request, cs: seq<StateColumn>)
    requires Shaped(func, phase)
    ensures forall j :: 0 <= j < |cs| ==> cs[j].request == r && cs[j].result < |q.aggs|
    ensures |cs| == func.states
    ensures forall g :: Read(q, cs, g) == Answer(func, phase, g)
  {
    match func.kind {
      case Sum =>
        q, cs := Request([func.args[0]], [SUM]), [StateColumn(r, 0, AsIs, 0)];
      case MinOf =>
        q, cs := Request([func.args[0]], [MIN]), [StateColumn(r, 0, AsIs, 0)];
      case MaxOf =>
        q, cs := Request([func.args[0]], [MAX]), [StateColumn(r, 0, AsIs, 0)];
      case Count =>
        q, cs := Request([func.args[0]], [COUNT]), [StateColumn(r, 0, CountToInt64, 0)];
      case Welford =>
        if phase == AtPartial {
          q := Request([func.args[0]], [COUNT, MEAN, M2]);
          cs := [
            StateColumn(r, 0, CountToInt64, 0), StateColumn(r, 1, NullAsZero, 0), StateColumn(r, 2, NullAsZero, 0)
          ];
        } else {
          q := Request([func.args[0], func.args[1], func.args[2]], [MERGE_M2]);
          cs := [];
          for child := 0 to 3
            invariant cs == seq(child, j requires 0 <= j < child => StateColumn(r, 0, MergedChild, j))
          {
            cs := cs + [StateColumn(r, 0, MergedChild, child)];
          }
          assert q.values == func.args;
        }
    }
    forall g
      ensures Read(q, cs, g) == Answer(func, phase, g)
    {
      if func.kind == Welford && phase == AtPartial {
        MomentsReadBack(q, cs, func.args[0], g);
      }
    }
  }

  lemma MomentsReadBack(q: Request, cs: seq<StateColumn>, arg: nat, g: seq<Cells>)
    requires q == Request([arg], [COUNT, MEAN, M2])
    requires |cs| == 3 && cs[0].result == 0 && cs[1].result == 1 && cs[2].result == 2
    requires cs[0].readback == CountToInt64 && cs[1].readback == NullAsZero && cs[2].readback == NullAsZero
    ensures Read(q, cs, g) == Flat(Partial(Welford, Map(CellAt(arg), g)))
  {
  }

  // One function more: the columns already there keep their meaning, and the new ones hold its
  // answer whatever the group.
  method AddRequests(func: Func, phase: Phase, into: Requests) returns (r: Result<Requests>)
    requires WellIndexed(into)
    ensures r.Ok? <==> Shaped(func, phase)
    ensures r.Ok? ==> WellIndexed(r.value)
    ensures r.Ok? ==> forall g :: Computed(r.value, g) == Computed(into, g) + Answer(func, phase, g)
  {
    hide Computed, Answer, Shaped, Device, ReadBack, Read;
    var shape := CheckShape(func, phase);
    if shape.Refused? {
      return Refused(shape.why);
    }
    var q, cs := RequestOf(func, phase, |into.requests|);
    r := Ok(Requests(into.requests + [q], into.columns + cs));
    forall g
      ensures Computed(r.value, g) == Computed(into, g) + Answer(func, phase, g)
    {
      Appended(into, q, cs, g);
    }
    Appended(into, q, cs, []);
  }

  method NodeRequests(funcs: seq<Func>, phase: Phase) returns (r: Result<Requests>)
    ensures r.Ok? <==> forall f :: f in funcs ==> Shaped(f, phase)
    ensures r.Ok? ==> WellIndexed(r.value) && forall g :: Computed(r.value, g) == Answers(funcs, phase, g)
  {
    hide Answer, Shaped, Device, ReadBack, Read;
    var built := Requests([], []);
    for i := 0 to |funcs|
      invariant forall f :: f in funcs[..i] ==> Shaped(f, phase)
      invariant WellIndexed(built) && forall g :: Computed(built, g) == Answers(funcs[..i], phase, g)
    {
      var next := AddRequests(funcs[i], phase, built);
      if next.Refused? {
        return Refused(next.why);
      }
      assert funcs[..i + 1][..i] == funcs[..i];
      built := next.value;
    }
    assert funcs[..|funcs|] == funcs;
    return Ok(built);
  }

  // ------------------------------------------------------------ the groupby

  function ArgsOf(): InRow -> Cells {
    (r: InRow) => r.args
  }

  // The cells of the rows of one group.
  function CellsOf(rows: seq<InRow>, k: Row): seq<Cells> {
    Map(ArgsOf(), Where(HasKey(k), rows))
  }

  datatype Group = Group(key: Row, results: seq<seq<Raw>>)

  ghost predicate ResultsOf(requests: seq<Request>, results: seq<seq<Raw>>, g: seq<Cells>) {
    && |results| == |requests|
    && (forall r :: 0 <= r < |requests| ==> |results[r]| == |requests[r].aggs|)
    && forall r, a :: 0 <= r < |requests| && 0 <= a < |requests[r].aggs| ==>
         results[r][a] == Device(requests[r].aggs[a], requests[r].values, g)
  }

  function Results(requests: seq<Request>, g: seq<Cells>): (results: seq<seq<Raw>>)
    ensures ResultsOf(requests, results, g)
  {
    seq(|requests|, r requires 0 <= r < |requests| =>
      seq(|requests[r].aggs|, a requires 0 <= a < |requests[r].aggs| =>
        Device(requests[r].aggs[a], requests[r].values, g)))
  }

  ghost predicate DistinctKeys(rows: seq<InRow>) {
    forall i, j :: 0 <= i < j < |rows| ==> rows[i].key != rows[j].key
  }

  // `groupby::aggregate`, NULL keys included: a result for every key, in some order.
  method GroupBy(requests: seq<Request>, input: seq<InRow>) returns (groups: seq<Group>)
    ensures forall i, j :: 0 <= i < j < |groups| ==> groups[i].key != groups[j].key
    ensures (set g | g in groups :: g.key) == KeySet(input)
    ensures forall j :: 0 <= j < |groups| ==> ResultsOf(requests, groups[j].results, CellsOf(input, groups[j].key))
  {
    hide CellsOf, ResultsOf, Results;
    groups := [];
    for i := 0 to |input|
      invariant forall i, j :: 0 <= i < j < |groups| ==> groups[i].key != groups[j].key
      invariant (set g | g in groups :: g.key) == KeySet(input[..i])
      invariant forall j :: 0 <= j < |groups| ==> ResultsOf(requests, groups[j].results, CellsOf(input, groups[j].key))
    {
      var k := input[i].key;
      KeySetNext(input, i);
      if forall g | g in groups :: g.key != k {
        var next := Group(k, Results(requests, CellsOf(input, k)));
        GroupKeysNext(groups, next);
        groups := groups + [next];
      }
    }
    assert input[..|input|] == input;
  }

  lemma KeySetNext(input: seq<InRow>, i: nat)
    requires i < |input|
    ensures KeySet(input[..i + 1]) == KeySet(input[..i]) + {input[i].key}
  {
  }

  lemma GroupKeysNext(groups: seq<Group>, next: Group)
    ensures (set g | g in groups + [next] :: g.key) == (set g | g in groups :: g.key) + {next.key}
  {
  }

  // One group's state columns, read out of its results in order.
  method AppendStateColumns(built: Requests, results: seq<seq<Raw>>, ghost g: seq<Cells>) returns (cells: Cells)
    requires WellIndexed(built) && ResultsOf(built.requests, results, g)
    ensures cells == Computed(built, g)
  {
    hide Device;
    cells := [];
    for c := 0 to |built.columns|
      invariant |cells| == c && forall j :: 0 <= j < c ==> cells[j] == Computed(built, g)[j]
    {
      var state := built.columns[c];
      cells := cells + [ReadBack(state, results[state.request][state.result])];
    }
  }

  // A table with one row per group of `input`, each holding its functions' answers.
  ghost predicate Aggregates(funcs: seq<Func>, phase: Phase, table: seq<InRow>, input: seq<InRow>) {
    && DistinctKeys(table)
    && KeySet(table) == KeySet(input)
    && forall r :: r in table ==> r.args == Answers(funcs, phase, CellsOf(input, r.key))
  }

  method RunGroups(built: Requests, input: seq<InRow>, ghost funcs: seq<Func>, ghost phase: Phase)
    returns (table: seq<InRow>)
    requires WellIndexed(built) && forall g :: Computed(built, g) == Answers(funcs, phase, g)
    ensures Aggregates(funcs, phase, table, input)
  {
    hide Answers, CellsOf, Computed, ResultsOf;
    var groups := GroupBy(built.requests, input);
    table := [];
    for j := 0 to |groups|
      invariant |table| == j && forall i :: 0 <= i < j ==> table[i].key == groups[i].key
      invariant forall i :: 0 <= i < j ==> table[i].args == Answers(funcs, phase, CellsOf(input, table[i].key))
    {
      var cells := AppendStateColumns(built, groups[j].results, CellsOf(input, groups[j].key));
      table := table + [InRow(groups[j].key, cells)];
    }
    SameKeyedRows(table, groups);
  }

  lemma SameKeyedRows(table: seq<InRow>, groups: seq<Group>)
    requires |table| == |groups| && forall i :: 0 <= i < |table| ==> table[i].key == groups[i].key
    ensures KeySet(table) == set g | g in groups :: g.key
  {
  }

  function Kinds(funcs: seq<Func>): (fns: seq<Fn>)
    ensures |fns| == |funcs| && forall i :: 0 <= i < |funcs| ==> fns[i] == funcs[i].kind
  {
    seq(|funcs|, i requires 0 <= i < |funcs| => funcs[i].kind)
  }

  // The column each function reads, or the first of them.
  function FirstArgs(funcs: seq<Func>): (cols: seq<nat>)
    ensures |cols| == |funcs|
    ensures forall i :: 0 <= i < |funcs| && funcs[i].args != [] ==> cols[i] == funcs[i].args[0]
  {
    seq(|funcs|, i requires 0 <= i < |funcs| => Nth(funcs[i].args, 0))
  }

  // Every function aggregates values: none of them merges moments.
  predicate OnValues(funcs: seq<Func>, phase: Phase) {
    phase == AtPartial || forall f :: f in funcs ==> f.kind != Welford
  }

  lemma ColumnIsCells(rows: seq<InRow>, k: Row, i: nat)
    ensures Column(rows, k, i) == Map(CellAt(i), CellsOf(rows, k))
  {
  }

  // What functions over values answer is what the rows of the group say.
  lemma {:induction false} AnswersHold(funcs: seq<Func>, phase: Phase, rows: seq<InRow>, k: Row)
    requires OnValues(funcs, phase)
    ensures HoldsStates(Kinds(funcs), FirstArgs(funcs), rows, k, Answers(funcs, phase, CellsOf(rows, k)))
    decreases |funcs|
  {
    if funcs == [] {
      NothingHeld(rows, k);
      assert Kinds(funcs) == [] && FirstArgs(funcs) == [];
    } else {
      var init, func := funcs[..|funcs| - 1], funcs[|funcs| - 1];
      assert funcs == init + [func];
      AnswersHold(init, phase, rows, k);
      hide *;
      AnswersSnoc(init, func, phase, rows, k);
      OneMoreHeld(Kinds(init), FirstArgs(init), rows, k, Answers(init, phase, CellsOf(rows, k)),
                  func.kind, Nth(func.args, 0));
    }
  }

  lemma AnswersSnoc(init: seq<Func>, func: Func, phase: Phase, rows: seq<InRow>, k: Row)
    requires OnValues(init + [func], phase)
    ensures Kinds(init + [func]) == Kinds(init) + [func.kind]
    ensures FirstArgs(init + [func]) == FirstArgs(init) + [Nth(func.args, 0)]
    ensures Answers(init + [func], phase, CellsOf(rows, k)) ==
            Answers(init, phase, CellsOf(rows, k)) + Flat(Partial(func.kind, Column(rows, k, Nth(func.args, 0))))
  {
    hide Partial, Flat, CellsOf, Column;
    assert (init + [func])[..|init|] == init && func in init + [func];
    ColumnIsCells(rows, k, Nth(func.args, 0));
  }

  lemma AggregatesHold(funcs: seq<Func>, phase: Phase, table: seq<InRow>, input: seq<InRow>)
    requires OnValues(funcs, phase) && Aggregates(funcs, phase, table, input)
    ensures HoldsGroups(Kinds(funcs), FirstArgs(funcs), table, input)
  {
    hide HoldsStates, OnValues, Answers, CellsOf;
    SameKeySets(table, input);
    forall r | r in table
      ensures HoldsStates(Kinds(funcs), FirstArgs(funcs), input, r.key, r.args)
    {
      AnswersHold(funcs, phase, input, r.key);
    }
  }

  lemma SameKeySets(table: seq<InRow>, input: seq<InRow>)
    requires KeySet(table) == KeySet(input)
    ensures forall k :: HasRow(table, k) <==> HasRow(input, k)
  {
    forall k
      ensures HasRow(table, k) <==> HasRow(input, k)
    {
      assert HasRow(table, k) <==> k in KeySet(table);
      assert HasRow(input, k) <==> k in KeySet(input);
    }
  }

  /** The grouped node. Functions over values answer what the rows of each group say. */
  method GroupedAggregate(funcs: seq<Func>, phase: Phase, input: seq<InRow>) returns (r: Result<seq<InRow>>)
    ensures r.Ok? <==> forall f :: f in funcs ==> Shaped(f, phase)
    ensures r.Ok? ==> Aggregates(funcs, phase, r.value, input)
    ensures r.Ok? && OnValues(funcs, phase) ==> HoldsGroups(Kinds(funcs), FirstArgs(funcs), r.value, input)
  {
    hide Aggregates, HoldsGroups, Shaped, OnValues;
    var built := NodeRequests(funcs, phase);
    if built.Refused? {
      return Refused(built.why);
    }
    var table := RunGroups(built.value, input, funcs, phase);
    if OnValues(funcs, phase) {
      AggregatesHold(funcs, phase, table, input);
    }
    return Ok(table);
  }

  // ------------------------------------------------------------ no keys

  function NullCount(vs: seq<Maybe>): nat {
    if vs == [] then 0 else NullCount(vs[..|vs| - 1]) + if vs[|vs| - 1].NoValue? then 1 else 0
  }

  lemma {:induction false} CountedByNulls(vs: seq<Maybe>)
    ensures |vs| - NullCount(vs) == |Valid(vs)|
  {
    if vs != [] {
      CountedByNulls(vs[..|vs| - 1]);
    }
  }

  // All the rows as one group, of no key.
  function OneGroup(g: seq<Cells>): (rows: seq<InRow>)
    ensures |rows| == |g| && forall j :: 0 <= j < |g| ==> rows[j] == InRow([], g[j])
  {
    seq(|g|, j requires 0 <= j < |g| => InRow([], g[j]))
  }

  // What functions over values answer without keys is what all the rows say.
  lemma KeylessHold(funcs: seq<Func>, phase: Phase, g: seq<Cells>)
    requires OnValues(funcs, phase)
    ensures HoldsStates(Kinds(funcs), FirstArgs(funcs), OneGroup(g), [], Answers(funcs, phase, g))
  {
    hide HoldsStates, Answers, Kinds, FirstArgs, OnValues;
    WhereAll(HasKey([]), OneGroup(g));
    assert CellsOf(OneGroup(g), []) == g;
    AnswersHold(funcs, phase, OneGroup(g), []);
  }

  /** One row: a reduction per function, a count counted. A row of no columns is refused. */
  method KeylessAggregate(funcs: seq<Func>, phase: Phase, g: seq<Cells>) returns (r: Result<Cells>)
    requires forall f :: f in funcs ==> f.kind != Welford
    ensures r.Ok? <==> funcs != [] && forall f :: f in funcs ==> Shaped(f, phase)
    ensures r.Ok? ==> r.value == Answers(funcs, phase, g)
    ensures r.Ok? ==> HoldsStates(Kinds(funcs), FirstArgs(funcs), OneGroup(g), [], r.value)
  {
    KeylessHold(funcs, phase, g);
    hide HoldsStates;
    var out: Cells := [];
    for i := 0 to |funcs|
      invariant forall f :: f in funcs[..i] ==> Shaped(f, phase)
      invariant out == Answers(funcs[..i], phase, g)
    {
      hide Answers, Partial, Valid;
      var func := funcs[i];
      assert func in funcs;
      var shape := CheckShape(func, phase);
      if shape.Refused? {
        return Refused(shape.why);
      }
      var values := Map(CellAt(func.args[0]), g);
      var cell: Maybe;
      if func.kind == Count {
        CountedByNulls(values);
        cell := Val((|values| - NullCount(values)) as real);
      } else {
        cell := Reduce(func.kind, values);
      }
      OneAnswer(funcs, i, phase, g, cell);
      out := out + [cell];
    }
    assert funcs[..|funcs|] == funcs;
    if funcs == [] {
      return Refused(NoColumns);
    }
    return Ok(out);
  }

  // `cudf::reduce`: a NULL over no valid value.
  function Reduce(kind: Fn, values: seq<Maybe>): Maybe
    requires kind.Sum? || kind.MinOf? || kind.MaxOf?
  {
    Partial(kind, values).value
  }

  lemma OneAnswer(funcs: seq<Func>, i: nat, phase: Phase, g: seq<Cells>, cell: Maybe)
    requires i < |funcs| && funcs[i].kind != Welford && |funcs[i].args| == 1
    requires var vs := Map(CellAt(funcs[i].args[0]), g);
             cell == if funcs[i].kind == Count then Val(|Valid(vs)| as real) else Reduce(funcs[i].kind, vs)
    ensures Answers(funcs[..i + 1], phase, g) == Answers(funcs[..i], phase, g) + [cell]
  {
    assert funcs[..i + 1][..i] == funcs[..i];
    assert Nth(funcs[i].args, 0) == funcs[i].args[0];
  }

  // The row a keyless node owes over no rows.
  method KeylessEmptyState(funcs: seq<Func>, ghost phase: Phase) returns (out: Cells)
    requires forall f :: f in funcs ==> Shaped(f, phase)
    ensures out == Answers(funcs, phase, [])
  {
    out := [];
    for i := 0 to |funcs|
      invariant out == Answers(funcs[..i], phase, [])
    {
      match funcs[i].kind {
        case Count =>
          out := out + [Val(0.0)];
        case Welford =>
          out := out + [Val(0.0), Val(0.0), Val(0.0)];
        case Sum =>
          out := out + [NoValue];
        case MinOf =>
          out := out + [NoValue];
        case MaxOf =>
          out := out + [NoValue];
      }
      assert funcs[..i + 1][..i] == funcs[..i];
    }
    assert funcs[..|funcs|] == funcs;
  }

  function UnderOneKey(): InRow -> InRow {
    (r: InRow) => InRow([Num(0)], r.args)
  }

  lemma OneKeyCells(input: seq<InRow>)
    ensures CellsOf(Map(UnderOneKey(), input), [Num(0)]) == Map(ArgsOf(), input)
    ensures KeySet(Map(UnderOneKey(), input)) == if input == [] then {} else {[Num(0)]}
  {
    var keyed := Map(UnderOneKey(), input);
    WhereAll(HasKey([Num(0)]), keyed);
    if input != [] {
      assert keyed[0] in keyed;
    }
  }

  // The same row by a detour: all the rows form one group, or none when there are no rows.
  method KeylessWelfordAggregate(funcs: seq<Func>, phase: Phase, input: seq<InRow>) returns (r: Result<Cells>)
    ensures r.Ok? <==> funcs != [] && forall f :: f in funcs ==> Shaped(f, phase)
    ensures r.Ok? ==> r.value == Answers(funcs, phase, Map(ArgsOf(), input))
    ensures r.Ok? && OnValues(funcs, phase) ==>
      HoldsStates(Kinds(funcs), FirstArgs(funcs), OneGroup(Map(ArgsOf(), input)), [], r.value)
  {
    hide CellsOf, Answers, Shaped, OnValues, HoldsStates, HoldsGroups, OneGroup;
    if OnValues(funcs, phase) {
      KeylessHold(funcs, phase, Map(ArgsOf(), input));
    }
    var keyed := Map(UnderOneKey(), input);
    var grouped := GroupedAggregate(funcs, phase, keyed);
    OneKeyCells(input);
    if grouped.Refused? {
      return Refused(grouped.why);
    }
    if funcs == [] {
      return Refused(NoColumns);
    }
    if |grouped.value| == 0 {
      var empty := KeylessEmptyState(funcs, phase);
      assert input == [];
      return Ok(empty);
    }
    assert grouped.value[0] in grouped.value;
    assert grouped.value[0].key in KeySet(grouped.value);
    return Ok(grouped.value[0].args);
  }
}
