/**
  Grouping. `GroupPartial` is what one partial phase over some rows answers, group by group;
  `GroupMerge` is what a merge phase makes of a table of such states. A table that `Carries` some
  rows merges to what one partial phase over all of them answers, and stays so when tables are
  put under one another and when rows change places.
 */
module Groups {
  import opened Tables
  import opened JoinResidual
  import opened Aggregate

  // ------------------------------------------------------------ groups

  // A row as an aggregation sees it: its group key, and one argument per function.
  datatype InRow = InRow(key: Row, args: seq<Maybe>)

  type Groups = map<Row, seq<Moment>>

  function KeySet(rows: seq<InRow>): set<Row> {
    set r | r in rows :: r.key
  }

  function HasKey(k: Row): InRow -> bool {
    (r: InRow) => r.key == k
  }

  function Arg(i: nat): InRow -> Maybe {
    (r: InRow) => if i < |r.args| then r.args[i] else NoValue
  }

  // One argument of the rows of one group.
  function Column(rows: seq<InRow>, k: Row, i: nat): seq<Maybe> {
    Map(Arg(i), Where(HasKey(k), rows))
  }

  function StatesOf(fns: seq<Fn>, rows: seq<InRow>, k: Row): (s: seq<Moment>)
    ensures |s| == |fns| && forall i :: 0 <= i < |fns| ==> s[i] == Partial(fns[i], Column(rows, k, i))
  {
    seq(|fns|, i requires 0 <= i < |fns| => Partial(fns[i], Column(rows, k, i)))
  }

  // The grouped partial phase: one entry per key, NULL keys included as keys like any other.
  function GroupPartial(fns: seq<Fn>, rows: seq<InRow>): (g: Groups)
    ensures g.Keys == KeySet(rows)
    ensures forall k :: k in g ==> g[k] == StatesOf(fns, rows, k)
  {
    map k | k in KeySet(rows) :: StatesOf(fns, rows, k)
  }

  // ------------------------------------------------------------ tables of states

  datatype OutRow = OutRow(key: Row, states: seq<Moment>)

  function OutHasKey(k: Row): OutRow -> bool {
    (r: OutRow) => r.key == k
  }

  function StateAt(i: nat): OutRow -> Moment {
    (r: OutRow) => if i < |r.states| then r.states[i] else Counted(0)
  }

  function OutKeys(table: seq<OutRow>): set<Row> {
    set r | r in table :: r.key
  }

  ghost predicate RealRow(fns: seq<Fn>, r: OutRow) {
    |r.states| == |fns| && forall i :: 0 <= i < |fns| ==> IsState(fns[i], r.states[i])
  }

  ghost predicate RealTable(fns: seq<Fn>, table: seq<OutRow>) {
    forall r :: r in table ==> RealRow(fns, r)
  }

  // One function's states of one group.
  function StatesFor(table: seq<OutRow>, k: Row, i: nat): seq<Moment> {
    Map(StateAt(i), Where(OutHasKey(k), table))
  }

  lemma StatesForReal(fns: seq<Fn>, table: seq<OutRow>, k: Row, i: nat)
    requires RealTable(fns, table) && i < |fns|
    ensures AllStates(fns[i], StatesFor(table, k, i))
    ensures forall s :: s in StatesFor(table, k, i) ==> Fits(fns[i], s)
    ensures StatesFor(table, k, i) != [] <==> k in OutKeys(table)
  {
    hide Partial, Where;
    var rows := Where(OutHasKey(k), table);
    forall r | r in rows
      ensures IsState(fns[i], StateAt(i)(r))
    {
      WhereHolds(OutHasKey(k), table, r);
      assert RealRow(fns, r);
    }
    if k in OutKeys(table) {
      var r :| r in table && r.key == k;
      WhereHolds(OutHasKey(k), table, r);
    }
    if rows != [] {
      WhereHolds(OutHasKey(k), table, rows[0]);
      MergeAllIsState(fns[i], StatesFor(table, k, i));
    }
  }

  // The merge phase: the rows of a table of states grouped by key, each function's states merged.
  ghost function GroupMerge(fns: seq<Fn>, table: seq<OutRow>): (g: Groups)
    requires RealTable(fns, table)
    ensures g.Keys == OutKeys(table)
    ensures forall k :: k in g ==> |g[k]| == |fns|
  {
    map k | k in OutKeys(table) ::
      seq(|fns|, i requires 0 <= i < |fns| =>
        StatesForReal(fns, table, k, i);
        MergeAll(fns[i], StatesFor(table, k, i)))
  }

  lemma GroupMergeAt(fns: seq<Fn>, table: seq<OutRow>, k: Row, i: nat)
    requires RealTable(fns, table) && k in OutKeys(table) && i < |fns|
    ensures StatesFor(table, k, i) != [] && AllStates(fns[i], StatesFor(table, k, i))
    ensures forall s :: s in StatesFor(table, k, i) ==> Fits(fns[i], s)
    ensures GroupMerge(fns, table)[k][i] == MergeAll(fns[i], StatesFor(table, k, i))
  {
    StatesForReal(fns, table, k, i);
  }

  // A table that lists some groups, one row each, in any order.
  ghost predicate Lists(table: seq<OutRow>, g: Groups) {
    && (forall i, j :: 0 <= i < j < |table| ==> table[i].key != table[j].key)
    && OutKeys(table) == g.Keys
    && forall r :: r in table ==> r.key in g && r.states == g[r.key]
  }

  // A table of states that merges to what one partial phase over `rows` answers.
  ghost predicate Carries(fns: seq<Fn>, table: seq<OutRow>, rows: seq<InRow>) {
    RealTable(fns, table) && GroupMerge(fns, table) == GroupPartial(fns, rows)
  }

  // ------------------------------------------------------------ merging

  lemma ColumnThen(xs: seq<InRow>, ys: seq<InRow>, k: Row, i: nat)
    ensures Column(xs + ys, k, i) == Column(xs, k, i) + Column(ys, k, i)
    ensures k !in KeySet(xs) ==> Column(xs, k, i) == []
    ensures k !in KeySet(ys) ==> Column(ys, k, i) == []
  {
    WhereThen(HasKey(k), xs, ys);
    MapThen(Arg(i), Where(HasKey(k), xs), Where(HasKey(k), ys));
    if k !in KeySet(ys) {
      WhereNone(HasKey(k), ys);
    }
    if k !in KeySet(xs) {
      WhereNone(HasKey(k), xs);
    }
  }

  lemma StatesForThen(s: seq<OutRow>, t: seq<OutRow>, k: Row, i: nat)
    ensures StatesFor(s + t, k, i) == StatesFor(s, k, i) + StatesFor(t, k, i)
  {
    WhereThen(OutHasKey(k), s, t);
    MapThen(StateAt(i), Where(OutHasKey(k), s), Where(OutHasKey(k), t));
  }

  lemma KeysThen(s: seq<OutRow>, t: seq<OutRow>, xs: seq<InRow>, ys: seq<InRow>)
    ensures OutKeys(s + t) == OutKeys(s) + OutKeys(t)
    ensures KeySet(xs + ys) == KeySet(xs) + KeySet(ys)
  {
  }

  lemma CarriedState(fns: seq<Fn>, t: seq<OutRow>, rows: seq<InRow>, k: Row, i: nat)
    requires Carries(fns, t, rows) && i < |fns|
    ensures StatesFor(t, k, i) != [] <==> k in KeySet(rows)
    ensures AllStates(fns[i], StatesFor(t, k, i))
    ensures forall s :: s in StatesFor(t, k, i) ==> Fits(fns[i], s)
    ensures k in KeySet(rows) ==> MergeAll(fns[i], StatesFor(t, k, i)) == Partial(fns[i], Column(rows, k, i))
  {
    hide Partial, Column, MergeAll, StatesFor, Fits, IsState;
    StatesForReal(fns, t, k, i);
    assert GroupMerge(fns, t).Keys == GroupPartial(fns, rows).Keys;
    if k in KeySet(rows) {
      GroupMergeAt(fns, t, k, i);
      assert GroupMerge(fns, t)[k][i] == GroupPartial(fns, rows)[k][i];
    }
  }

  lemma CarriesFrom(fns: seq<Fn>, t: seq<OutRow>, rows: seq<InRow>)
    requires RealTable(fns, t) && OutKeys(t) == KeySet(rows)
    requires forall k, i :: k in KeySet(rows) && 0 <= i < |fns| ==>
               GroupMerge(fns, t)[k][i] == Partial(fns[i], Column(rows, k, i))
    ensures Carries(fns, t, rows)
  {
    hide Partial, Column;
    var m, p := GroupMerge(fns, t), GroupPartial(fns, rows);
    forall k | k in m
      ensures m[k] == p[k]
    {
      assert |m[k]| == |p[k]|;
      forall i | 0 <= i < |fns|
        ensures m[k][i] == p[k][i]
      {
        assert m[k][i] == Partial(fns[i], Column(rows, k, i));
      }
    }
  }

  // Tables of two batches, one under the other, carry both.
  lemma CarriesThen(fns: seq<Fn>, s: seq<OutRow>, t: seq<OutRow>, xs: seq<InRow>, ys: seq<InRow>)
    requires Carries(fns, s, xs) && Carries(fns, t, ys)
    ensures Carries(fns, s + t, xs + ys)
  {
    hide Partial, Column, MergeAll, StatesFor, GroupMerge, GroupPartial, IsState, Fits, OutKeys, KeySet, Merge2;
    KeysThen(s, t, xs, ys);
    CarriedKeys(fns, s, xs);
    CarriedKeys(fns, t, ys);
    forall k, i | k in KeySet(xs + ys) && 0 <= i < |fns|
      ensures GroupMerge(fns, s + t)[k][i] == Partial(fns[i], Column(xs + ys, k, i))
    {
      CarriesThenAt(fns, s, t, xs, ys, k, i);
    }
    CarriesFrom(fns, s + t, xs + ys);
  }

  lemma CarriedKeys(fns: seq<Fn>, s: seq<OutRow>, xs: seq<InRow>)
    requires Carries(fns, s, xs)
    ensures OutKeys(s) == KeySet(xs)
  {
  }

  lemma CarriesThenAt(fns: seq<Fn>, s: seq<OutRow>, t: seq<OutRow>, xs: seq<InRow>, ys: seq<InRow>, k: Row, i: nat)
    requires Carries(fns, s, xs) && Carries(fns, t, ys)
    requires k in KeySet(xs + ys) && i < |fns|
    ensures RealTable(fns, s + t) && k in OutKeys(s + t)
    ensures GroupMerge(fns, s + t)[k][i] == Partial(fns[i], Column(xs + ys, k, i))
  {
    hide Partial, Column, MergeAll, StatesFor, GroupMerge, GroupPartial, IsState, Fits, Merge2, RealRow;
    KeysThen(s, t, xs, ys);
    CarriedKeys(fns, s, xs);
    CarriedKeys(fns, t, ys);
    GroupMergeAt(fns, s + t, k, i);
    StatesForThen(s, t, k, i);
    ColumnThen(xs, ys, k, i);
    CarriedState(fns, s, xs, k, i);
    CarriedState(fns, t, ys, k, i);
    var a, b := StatesFor(s, k, i), StatesFor(t, k, i);
    if a == [] {
      assert a + b == b && Column(xs, k, i) + Column(ys, k, i) == Column(ys, k, i);
    } else if b == [] {
      assert a + b == a && Column(xs, k, i) + Column(ys, k, i) == Column(xs, k, i);
    } else {
      MergeAllThen(fns[i], a, b);
      PartialThen(fns[i], Column(xs, k, i), Column(ys, k, i));
    }
  }

  // The order of the rows makes no difference to a grouped aggregate.
  lemma GroupPartialPermutes(fns: seq<Fn>, xs: seq<InRow>, ys: seq<InRow>)
    requires multiset(xs) == multiset(ys)
    ensures GroupPartial(fns, xs) == GroupPartial(fns, ys)
  {
    hide Partial, Where;
    SameKeys(xs, ys);
    forall k | k in KeySet(xs)
      ensures StatesOf(fns, xs, k) == StatesOf(fns, ys, k)
    {
      WherePermutes(HasKey(k), xs, ys);
      forall i | 0 <= i < |fns|
        ensures Partial(fns[i], Column(xs, k, i)) == Partial(fns[i], Column(ys, k, i))
      {
        MapPermutes(Arg(i), Where(HasKey(k), xs), Where(HasKey(k), ys));
        PartialPermutes(fns[i], Column(xs, k, i), Column(ys, k, i));
      }
    }
  }

  lemma SameKeys(xs: seq<InRow>, ys: seq<InRow>)
    requires multiset(xs) == multiset(ys)
    ensures KeySet(xs) == KeySet(ys)
  {
    forall r
      ensures r in xs <==> r in ys
    {
      assert r in multiset(xs) <==> r in multiset(ys);
    }
  }

  // Nor does the order of the states.
  lemma CarriesPermutes(fns: seq<Fn>, s: seq<OutRow>, t: seq<OutRow>, rows: seq<InRow>)
    requires Carries(fns, s, rows) && multiset(s) == multiset(t)
    ensures Carries(fns, t, rows)
  {
    hide Partial, Column, MergeAll, GroupMerge, GroupPartial, IsState, Fits, Merge2, Where;
    forall r
      ensures r in s <==> r in t
    {
      assert r in multiset(s) <==> r in multiset(t);
    }
    assert OutKeys(s) == OutKeys(t);
    CarriedKeys(fns, s, rows);
    forall k, i | k in KeySet(rows) && 0 <= i < |fns|
      ensures GroupMerge(fns, t)[k][i] == Partial(fns[i], Column(rows, k, i))
    {
      CarriedState(fns, s, rows, k, i);
      WherePermutes(OutHasKey(k), s, t);
      MapPermutes(StateAt(i), Where(OutHasKey(k), s), Where(OutHasKey(k), t));
      MergeAllPermutes(fns[i], StatesFor(s, k, i), StatesFor(t, k, i));
      GroupMergeAt(fns, t, k, i);
    }
    CarriesFrom(fns, t, rows);
  }

  // What a partial phase answers carries its rows.
  lemma PartialCarries(fns: seq<Fn>, table: seq<OutRow>, rows: seq<InRow>)
    requires Lists(table, GroupPartial(fns, rows))
    ensures Carries(fns, table, rows)
  {
    hide Partial, Column, GroupMerge, Where;
    forall r | r in table
      ensures RealRow(fns, r)
    {
      forall i | 0 <= i < |fns|
        ensures IsState(fns[i], r.states[i])
      {
        assert r.states[i] == Partial(fns[i], Column(rows, r.key, i));
      }
    }
    forall k, i | k in KeySet(rows) && 0 <= i < |fns|
      ensures GroupMerge(fns, table)[k][i] == Partial(fns[i], Column(rows, k, i))
    {
      GroupMergeAt(fns, table, k, i);
      var at := OnlyRow(table, k);
      assert table[at] in table;
      assert table[at].states == StatesOf(fns, rows, k);
    }
    CarriesFrom(fns, table, rows);
  }

  // A key listed once is found in one row.
  lemma OnlyRow(table: seq<OutRow>, k: Row) returns (at: nat)
    requires forall i, j :: 0 <= i < j < |table| ==> table[i].key != table[j].key
    requires k in OutKeys(table)
    ensures at < |table| && table[at].key == k
    ensures Where(OutHasKey(k), table) == [table[at]]
  {
    at :| 0 <= at < |table| && table[at].key == k;
    WhereOnly(OutHasKey(k), table, at);
  }
}
