/**
  The hash repartition: one table scattered into n lanes by a hash of its key columns. The lanes
  are a disjoint cover of the rows, and since a group's rows all land in one lane, aggregating
  lane by lane is aggregating the whole.
 */
module Scatter {
  import opened Basics
  import opened Tables
  import opened JoinResidual
  import opened Aggregate
  import opened Groups
  import opened AggregateNode
  import opened AggregateRuns
  import opened GroupingSets

  // The lane of a key: its hash, any function of the key, reduced to 0..n-1.
  function Lane(hash: Row -> int, n: nat): (p: InRow -> int)
    requires n > 0
    ensures forall r :: 0 <= p(r) < n
  {
    (r: InRow) => hash(r.key) % n
  }

  function InLane(lane: InRow -> int, p: int): InRow -> bool {
    (r: InRow) => lane(r) == p
  }

  function BelowLane(lane: InRow -> int, p: int): InRow -> bool {
    (r: InRow) => lane(r) < p
  }

  lemma {:induction false} WhereEither<T>(a: T -> bool, b: T -> bool, either: T -> bool, xs: seq<T>)
    requires forall x :: x in xs ==> either(x) == (a(x) || b(x)) && !(a(x) && b(x))
    ensures multiset(Where(either, xs)) == multiset(Where(a, xs)) + multiset(Where(b, xs))
    decreases |xs|
  {
    if xs != [] {
      var n := |xs| - 1;
      WhereEither(a, b, either, xs[..n]);
      assert xs[n] in xs;
    }
  }

  // Where partition p ends: at the next one's offset, the last at the table's end.
  function End(offsets: seq<nat>, total: nat, p: nat): nat {
    if p + 1 < |offsets| then offsets[p + 1] else total
  }

  ghost predicate Parted(lane: InRow -> int, parted: seq<InRow>, offsets: seq<nat>) {
    && (if offsets == [] then parted == [] else offsets[0] == 0)
    && (forall p :: 0 <= p < |offsets| ==> offsets[p] <= End(offsets, |parted|, p) <= |parted|)
    && (forall i :: 0 <= i < |parted| ==> lane(parted[i]) < |offsets|)
    && forall p, i :: 0 <= p < |offsets| && 0 <= i < |parted| ==>
         (offsets[p] <= i < End(offsets, |parted|, p) <==> lane(parted[i]) == p)
  }

  // `spark_hash_partition`: the rows reordered so that each partition's lie together, and where
  // each partition starts.
  method HashPartition(lane: InRow -> int, n: nat, input: seq<InRow>) returns (parted: seq<InRow>, offsets: seq<nat>)
    requires n > 0 && forall r :: 0 <= lane(r) < n
    ensures |offsets| == n && multiset(parted) == multiset(input)
    ensures Parted(lane, parted, offsets)
  {
    hide *;
    parted, offsets := [], [];
    NothingParted(lane, input);
    for p := 0 to n
      invariant |offsets| == p && multiset(parted) == multiset(Where(BelowLane(lane, p), input))
      invariant Parted(lane, parted, offsets)
    {
      var next := Where(InLane(lane, p), input);
      NextLane(lane, parted, offsets, next, input);
      BelowNext(lane, p, input);
      offsets, parted := offsets + [|parted|], parted + next;
    }
    EveryLane(lane, n, input);
  }

  lemma NothingParted(lane: InRow -> int, input: seq<InRow>)
    requires forall r :: 0 <= lane(r)
    ensures Where(BelowLane(lane, 0), input) == [] && Parted(lane, [], [])
  {
    WhereNone(BelowLane(lane, 0), input);
  }

  lemma BelowNext(lane: InRow -> int, p: nat, input: seq<InRow>)
    ensures multiset(Where(BelowLane(lane, p + 1), input)) ==
            multiset(Where(BelowLane(lane, p), input)) + multiset(Where(InLane(lane, p), input))
  {
    hide Where;
    WhereEither(BelowLane(lane, p), InLane(lane, p), BelowLane(lane, p + 1), input);
  }

  lemma EveryLane(lane: InRow -> int, n: nat, input: seq<InRow>)
    requires forall r :: lane(r) < n
    ensures Where(BelowLane(lane, n), input) == input
  {
    WhereAll(BelowLane(lane, n), input);
  }

  lemma NextLane(lane: InRow -> int, parted: seq<InRow>, offsets: seq<nat>, next: seq<InRow>, input: seq<InRow>)
    requires Parted(lane, parted, offsets) && next == Where(InLane(lane, |offsets|), input)
    ensures Parted(lane, parted + next, offsets + [|parted|])
  {
    hide Where;
    forall i | 0 <= i < |next|
      ensures lane(next[i]) == |offsets|
    {
      WhereHolds(InLane(lane, |offsets|), input, next[i]);
    }
  }

  datatype Scattered = BadCount | Throws | Slices(parts: seq<seq<InRow>>)

  // Slice p holds exactly the rows of lane p.
  ghost predicate IsScatter(lane: InRow -> int, slices: seq<seq<InRow>>, input: seq<InRow>) {
    && multiset(Concat(slices)) == multiset(input)
    && forall p :: 0 <= p < |slices| ==> multiset(slices[p]) == multiset(Where(InLane(lane, p), input))
  }

  // The count, an unsigned 32-bit number, is narrowed on the way to the device, which takes no
  // negative one.
  method ScatterTable(hash: Row -> int, n: nat, outCap: nat, input: seq<InRow>) returns (r: Scattered)
    requires n < 0x1_0000_0000
    ensures r.BadCount? <==> n == 0 || n > outCap
    ensures r.Throws? <==> 0x8000_0000 <= n <= outCap
    ensures r.Slices? ==> |r.parts| == n && IsScatter(Lane(hash, n), r.parts, input)
    ensures r.Slices? ==> forall p, x :: 0 <= p < n ==>
      multiset(r.parts[p])[x] == if hash(x.key) % n == p then multiset(input)[x] else 0
  {
    if n == 0 || n > outCap {
      return BadCount;
    }
    if AsSize(n) <= 0 {
      return Throws;
    }
    var lane := Lane(hash, n);
    var parted, offsets := HashPartition(lane, n, input);
    hide Parted, Lane, Sliced;
    var total := |parted|;
    var parts: seq<seq<InRow>> := [];
    NoneSliced(lane, parted, offsets, input);
    for p := 0 to n
      invariant |parts| == p && Sliced(lane, parts, parted, offsets, input)
    {
      var start := offsets[p];
      var end := if p + 1 < n then offsets[p + 1] else total;
      NextSliced(lane, parts, parted, offsets, input);
      parts := parts + [parted[start..end]];
    }
    AllSliced(lane, parts, parted, offsets, input);
    SliceCounts(hash, n, parts, input);
    return Slices(parts);
  }

  // A slice holds a row as often as the input, or not at all, as the hash of its key says.
  lemma SliceCounts(hash: Row -> int, n: nat, parts: seq<seq<InRow>>, input: seq<InRow>)
    requires n > 0 && |parts| == n && IsScatter(Lane(hash, n), parts, input)
    ensures forall p, x :: 0 <= p < n ==>
              multiset(parts[p])[x] == if hash(x.key) % n == p then multiset(input)[x] else 0
  {
    hide Where;
    forall p, x | 0 <= p < n
      ensures multiset(parts[p])[x] == if hash(x.key) % n == p then multiset(input)[x] else 0
    {
      WhereCount(InLane(Lane(hash, n), p), input, x);
    }
  }

  // The partitions cut so far.
  ghost predicate Sliced(
      lane: InRow -> int, parts: seq<seq<InRow>>, parted: seq<InRow>, offsets: seq<nat>, input: seq<InRow>)
  {
    var p := |parts|;
    && p <= |offsets| && (p < |offsets| ==> offsets[p] <= |parted|)
    && Concat(parts) == parted[..if p < |offsets| then offsets[p] else |parted|]
    && forall q :: 0 <= q < p ==> multiset(parts[q]) == multiset(Where(InLane(lane, q), input))
  }

  lemma NoneSliced(lane: InRow -> int, parted: seq<InRow>, offsets: seq<nat>, input: seq<InRow>)
    requires Parted(lane, parted, offsets)
    ensures Sliced(lane, [], parted, offsets, input)
  {
  }

  lemma NextSliced(lane: InRow -> int, parts: seq<seq<InRow>>, parted: seq<InRow>, offsets: seq<nat>, input: seq<InRow>)
    requires Parted(lane, parted, offsets) && multiset(parted) == multiset(input)
    requires Sliced(lane, parts, parted, offsets, input) && |parts| < |offsets|
    ensures var p := |parts|;
            && offsets[p] <= End(offsets, |parted|, p) <= |parted|
            && Sliced(lane, parts + [parted[offsets[p]..End(offsets, |parted|, p)]], parted, offsets, input)
  {
    hide Where, Parted;
    var p := |parts|;
    SliceIsLane(lane, parted, offsets, input, p);
    var start, end := offsets[p], End(offsets, |parted|, p);
    assert (parts + [parted[start..end]])[..p] == parts;
    assert parted[..start] + parted[start..end] == parted[..end];
  }

  lemma AllSliced(lane: InRow -> int, parts: seq<seq<InRow>>, parted: seq<InRow>, offsets: seq<nat>, input: seq<InRow>)
    requires Sliced(lane, parts, parted, offsets, input) && |parts| == |offsets| && multiset(parted) == multiset(input)
    ensures IsScatter(lane, parts, input)
  {
    assert parted[..|parted|] == parted;
  }

  lemma SliceIsLane(lane: InRow -> int, parted: seq<InRow>, offsets: seq<nat>, input: seq<InRow>, p: nat)
    requires Parted(lane, parted, offsets) && p < |offsets| && multiset(parted) == multiset(input)
    ensures offsets[p] <= End(offsets, |parted|, p) <= |parted|
    ensures multiset(parted[offsets[p]..End(offsets, |parted|, p)]) == multiset(Where(InLane(lane, p), input))
  {
    hide Where;
    var start, end := offsets[p], End(offsets, |parted|, p);
    Between(InLane(lane, p), parted, start, end);
    WherePermutes(InLane(lane, p), parted, input);
  }

  lemma {:induction false} Between<T>(keep: T -> bool, xs: seq<T>, start: nat, end: nat)
    requires start <= end <= |xs| && forall i :: 0 <= i < |xs| ==> (start <= i < end <==> keep(xs[i]))
    ensures Where(keep, xs) == xs[start..end]
    decreases |xs|
  {
    if xs != [] {
      var n := |xs| - 1;
      var init := xs[..n];
      assert forall i :: 0 <= i < n ==> init[i] == xs[i];
      if end <= n {
        Between(keep, init, start, end);
        assert xs[start..end] == init[start..end];
      } else if start <= n {
        Between(keep, init, start, n);
        assert xs[start..end] == init[start..n] + [xs[n]];
      } else {
        Between(keep, init, n, n);
        assert xs[start..end] == [] == init[n..n];
      }
    }
  }

  // ------------------------------------------------------------ lane by lane

  // Lanes of different rows never share a key.
  lemma LanesApart(hash: Row -> int, n: nat, xs: seq<InRow>, ys: seq<InRow>)
    requires n > 0
    requires forall x, y :: x in xs && y in ys ==> Lane(hash, n)(x) != Lane(hash, n)(y)
    ensures KeySet(xs) !! KeySet(ys)
  {
  }

  ghost predicate LaneByLane(funcs: seq<Func>, phase: Phase, tables: seq<seq<InRow>>, slices: seq<seq<InRow>>) {
    |tables| == |slices| && forall p :: 0 <= p < |slices| ==> Aggregates(funcs, phase, tables[p], slices[p])
  }

  lemma LaneRows(hash: Row -> int, n: nat, slices: seq<seq<InRow>>, input: seq<InRow>, p: nat, r: InRow)
    requires n > 0 && IsScatter(Lane(hash, n), slices, input) && p < |slices| && r in slices[p]
    ensures Lane(hash, n)(r) == p
  {
    hide Where, Lane;
    assert r in multiset(slices[p]);
    WhereHolds(InLane(Lane(hash, n), p), input, r);
  }

  lemma {:induction false} ConcatHolds<T>(parts: seq<seq<T>>, x: T) returns (p: nat)
    requires x in Concat(parts)
    ensures p < |parts| && x in parts[p]
    decreases |parts|
  {
    var n := |parts| - 1;
    if x in parts[n] {
      p := n;
    } else {
      p := ConcatHolds(parts[..n], x);
    }
  }

  lemma {:induction false} LanesAggregate(
      funcs: seq<Func>, phase: Phase, hash: Row -> int, n: nat, tables: seq<seq<InRow>>, slices: seq<seq<InRow>>,
      input: seq<InRow>, m: nat)
    requires n > 0 && IsScatter(Lane(hash, n), slices, input)
    requires LaneByLane(funcs, phase, tables, slices) && m <= |slices|
    ensures Aggregates(funcs, phase, Concat(tables[..m]), Concat(slices[..m]))
  {
    if m > 0 {
      hide Aggregates, Lane, IsScatter, KeySet;
      LanesAggregate(funcs, phase, hash, n, tables, slices, input, m - 1);
      assert tables[..m][..m - 1] == tables[..m - 1] && slices[..m][..m - 1] == slices[..m - 1];
      var before := Concat(slices[..m - 1]);
      forall x, y | x in before && y in slices[m - 1]
        ensures Lane(hash, n)(x) != Lane(hash, n)(y)
      {
        var p := ConcatHolds(slices[..m - 1], x);
        LaneRows(hash, n, slices, input, p, x);
        LaneRows(hash, n, slices, input, m - 1, y);
      }
      LanesApart(hash, n, before, slices[m - 1]);
      ApartAggregates(funcs, phase, Concat(tables[..m - 1]), tables[m - 1], before, slices[m - 1]);
    }
  }

  // Partial states of each lane, put together, are those of the whole input.
  lemma ScatterThenPartial(
      fns: seq<Fn>, hash: Row -> int, n: nat, tables: seq<seq<InRow>>, slices: seq<seq<InRow>>, input: seq<InRow>)
    returns (table: seq<OutRow>)
    requires n > 0 && IsScatter(Lane(hash, n), slices, input)
    requires LaneByLane(PartialFuncs(fns), AtPartial, tables, slices)
    ensures Concat(tables) == Map(FlatRow(), table) && Lists(table, GroupPartial(fns, input))
  {
    hide Lane, Aggregates, GroupPartial, Lists;
    LanesAggregate(PartialFuncs(fns), AtPartial, hash, n, tables, slices, input, |slices|);
    assert tables[..|slices|] == tables && slices[..|slices|] == slices;
    table := PartialLists(fns, Concat(tables), Concat(slices));
    GroupPartialPermutes(fns, Concat(slices), input);
  }

  // And a table of states scattered and merged lane by lane is that table merged.
  lemma ScatterThenMerge(
      fns: seq<Fn>, hash: Row -> int, n: nat, tables: seq<seq<InRow>>, slices: seq<seq<InRow>>, states: seq<OutRow>,
      rows: seq<InRow>)
    returns (table: seq<OutRow>)
    requires n > 0 && IsScatter(Lane(hash, n), slices, Map(FlatRow(), states))
    requires LaneByLane(MergeFuncs(fns), AtMerge, tables, slices)
    requires Carries(fns, states, rows)
    ensures Concat(tables) == Map(FlatRow(), table) && Lists(table, GroupPartial(fns, rows))
  {
    hide Lane, Aggregates, GroupPartial, Lists;
    var input := Map(FlatRow(), states);
    LanesAggregate(MergeFuncs(fns), AtMerge, hash, n, tables, slices, input, |slices|);
    assert tables[..|slices|] == tables && slices[..|slices|] == slices;
    var moved := Unmapped(FlatRow(), states, Concat(slices));
    CarriesPermutes(fns, states, moved, rows);
    table := MergeLists(fns, Concat(tables), moved);
  }
}
