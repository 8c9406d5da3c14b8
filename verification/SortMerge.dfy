/**
  Sorted runs and their merge. A sort orders rows by a list of keys, each ascending or
  descending with its NULLs first or last; a sort may cut its answer to the first n rows; a
  sort-preserving merge brings two or more runs together and cuts again. The main result is that
  cutting locally first changes nothing: the keys that come out are those of sorting everything
  and taking n.
 */
module SortMerge {
  import opened Basics
  import opened Tables
  import opened JoinResidual

  // ------------------------------------------------------------ the order

  datatype SortKey = SortKey(column: nat, asc: bool, nullsFirst: bool)

  datatype NullOrder = BEFORE | AFTER

  // Which placement to ask the library for, given that it reverses NULLs along with everything
  // else on a descending key. `NullsLand` says where they end up.
  function NullOrderOf(k: SortKey): NullOrder {
    if k.nullsFirst == k.asc then BEFORE else AFTER
  }

  // The order of the non-NULL values of a column: booleans before numbers, each by value.
  function Rank(v: Value): (int, int) {
    match v
    case Null => (0, 0)
    case Bool(b) => (1, if b then 1 else 0)
    case Num(n) => (2, n)
  }

  predicate ValueLess(a: Value, b: Value) {
    Rank(a).0 < Rank(b).0 || (Rank(a).0 == Rank(b).0 && Rank(a).1 < Rank(b).1)
  }

  // The library's comparison of one key column: NULLs placed by `nulls`, then the whole order
  // flipped if descending.
  predicate CudfLess(asc: bool, nulls: NullOrder, a: Value, b: Value) {
    var x, y := if asc then a else b, if asc then b else a;
    if x == Null || y == Null then
      x != y && (if nulls == BEFORE then x == Null else y == Null)
    else ValueLess(x, y)
  }

  predicate Less(k: SortKey, a: Value, b: Value) {
    CudfLess(k.asc, NullOrderOf(k), a, b)
  }

  // NULLs land where the key says, in both directions, and the values in between follow the
  // key's direction.
  lemma NullsLand(k: SortKey, v: Value)
    requires v != Null
    ensures Less(k, Null, v) <==> k.nullsFirst
    ensures Less(k, v, Null) <==> !k.nullsFirst
    ensures forall w :: w != Null ==> (Less(k, v, w) <==> if k.asc then ValueLess(v, w) else ValueLess(w, v))
  {
  }

  // Values of one kind are in their own order, the way round the key says.
  lemma ByValue(k: SortKey)
    ensures forall a, b :: Less(k, Num(a), Num(b)) <==> if k.asc then a < b else b < a
    ensures forall a, b :: Less(k, Bool(a), Bool(b)) <==> a != b && b == k.asc
  {
  }

  // Lexicographic over the key columns. A key row is as wide as the key list; past the list the
  // order goes on by value, so that it is one total order of all rows.
  predicate Leq(keys: seq<SortKey>, a: Row, b: Row) {
    if a == [] then true
    else if b == [] then false
    else
      var k := if keys == [] then SortKey(0, true, true) else keys[0];
      Less(k, a[0], b[0]) || (a[0] == b[0] && Leq(if keys == [] then [] else keys[1..], a[1..], b[1..]))
  }

  lemma {:induction false} LeqTotal(keys: seq<SortKey>, a: Row, b: Row)
    ensures Leq(keys, a, b) || Leq(keys, b, a)
    ensures Leq(keys, a, b) && Leq(keys, b, a) ==> a == b
    decreases |a|
  {
    if a != [] && b != [] {
      LeqTotal(if keys == [] then [] else keys[1..], a[1..], b[1..]);
      assert a == [a[0]] + a[1..] && b == [b[0]] + b[1..];
    }
  }

  lemma {:induction false} LeqTransitive(keys: seq<SortKey>, a: Row, b: Row, c: Row)
    requires Leq(keys, a, b) && Leq(keys, b, c)
    ensures Leq(keys, a, c)
    decreases |a|
  {
    if a != [] && b != [] && c != [] && a[0] == b[0] == c[0] {
      LeqTransitive(if keys == [] then [] else keys[1..], a[1..], b[1..], c[1..]);
    }
  }

  // ------------------------------------------------------------ sorted sequences

  ghost predicate Sorted(keys: seq<SortKey>, xs: seq<Row>) {
    forall i, j :: 0 <= i < j < |xs| ==> Leq(keys, xs[i], xs[j])
  }

  ghost predicate AllBefore(keys: seq<SortKey>, xs: seq<Row>, d: Row) {
    forall x :: x in xs ==> Leq(keys, x, d)
  }

  ghost predicate AllAfter(keys: seq<SortKey>, d: Row, xs: seq<Row>) {
    forall x :: x in xs ==> Leq(keys, d, x)
  }

  lemma LastIsGreatest(keys: seq<SortKey>, xs: seq<Row>, x: Row)
    requires Sorted(keys, xs) && x in xs
    ensures Leq(keys, x, xs[|xs| - 1])
  {
    hide Leq;
    var i :| 0 <= i < |xs| && xs[i] == x;
    LeqTotal(keys, x, x);
  }

  lemma SamePeople<T>(xs: seq<T>, ys: seq<T>, x: T)
    requires multiset(xs) == multiset(ys) && x in xs
    ensures x in ys
  {
    assert x in multiset(xs);
  }

  lemma DropLast<T>(xs: seq<T>, ys: seq<T>)
    requires multiset(xs) == multiset(ys) && |xs| == |ys| > 0 && xs[|xs| - 1] == ys[|ys| - 1]
    ensures multiset(xs[..|xs| - 1]) == multiset(ys[..|ys| - 1])
  {
    var n := |xs| - 1;
    LastOf(xs);
    LastOf(ys);
    Cancel(multiset{xs[n]}, multiset(xs[..n]), multiset(ys[..n]));
  }

  lemma LastOf<T>(xs: seq<T>)
    requires xs != []
    ensures multiset(xs) == multiset{xs[|xs| - 1]} + multiset(xs[..|xs| - 1])
  {
    assert xs == xs[..|xs| - 1] + [xs[|xs| - 1]];
  }

  lemma Cancel<T>(a: multiset<T>, b: multiset<T>, c: multiset<T>)
    requires a + b == a + c
    ensures b == c
  {
    assert b == (a + b) - a && c == (a + c) - a;
  }

  lemma SameLength<T>(xs: seq<T>, ys: seq<T>)
    requires multiset(xs) == multiset(ys)
    ensures |xs| == |ys|
  {
    assert |multiset(xs)| == |xs| && |multiset(ys)| == |ys|;
  }

  // A multiset has one sorted sequence: the order the library leaves ties in cannot show.
  lemma {:induction false} SortedUnique(keys: seq<SortKey>, xs: seq<Row>, ys: seq<Row>)
    requires Sorted(keys, xs) && Sorted(keys, ys) && multiset(xs) == multiset(ys)
    ensures xs == ys
    decreases |xs|
  {
    hide Leq;
    SameLength(xs, ys);
    if xs != [] {
      var n := |xs| - 1;
      SamePeople(xs, ys, xs[n]);
      SamePeople(ys, xs, ys[n]);
      LastIsGreatest(keys, ys, xs[n]);
      LastIsGreatest(keys, xs, ys[n]);
      LeqTotal(keys, xs[n], ys[n]);
      DropLast(xs, ys);
      SortedUnique(keys, xs[..n], ys[..n]);
      assert xs == xs[..n] + [xs[n]] && ys == ys[..n] + [ys[n]];
    }
  }

  function Take<T>(n: nat, xs: seq<T>): (r: seq<T>)
    ensures |r| == if n <= |xs| then n else |xs|
  {
    if n <= |xs| then xs[..n] else xs
  }

  // ------------------------------------------------------------ cutting early

  lemma SubmultisetCardinality<T(!new)>(a: multiset<T>, b: multiset<T>)
    requires a <= b
    ensures |a| <= |b|
  {
    assert b == a + (b - a);
  }

  // If `n` rows of a sorted collection come before `d`, its n-th row does.
  lemma NthBefore(keys: seq<SortKey>, kept: seq<Row>, all: seq<Row>, n: nat, d: Row)
    requires Sorted(keys, all) && multiset(kept) <= multiset(all) && |kept| == n && 0 < n <= |all|
    requires AllBefore(keys, kept, d)
    ensures Leq(keys, all[n - 1], d)
  {
    hide Leq;
    if !Leq(keys, all[n - 1], d) {
      var head, tail := all[..n - 1], all[n - 1..];
      forall x | x in kept
        ensures x !in tail
      {
        if x in tail {
          NotAfter(keys, all, n, d, x);
        }
      }
      WithinHead(kept, all, head, tail);
    }
  }

  lemma NotAfter(keys: seq<SortKey>, all: seq<Row>, n: nat, d: Row, x: Row)
    requires Sorted(keys, all) && 0 < n <= |all| && x in all[n - 1..] && Leq(keys, x, d)
    ensures Leq(keys, all[n - 1], d)
  {
    hide Leq;
    var k :| 0 <= k < |all[n - 1..]| && all[n - 1..][k] == x;
    assert all[n - 1 + k] == x;
    if k > 0 {
      LeqTransitive(keys, all[n - 1], x, d);
    }
  }

  lemma WithinHead(kept: seq<Row>, all: seq<Row>, head: seq<Row>, tail: seq<Row>)
    requires multiset(kept) <= multiset(all) && all == head + tail && forall x :: x in kept ==> x !in tail
    ensures |kept| <= |head|
  {
    forall x
      ensures multiset(kept)[x] <= multiset(head)[x]
    {
      assert x in multiset(kept) ==> x in kept;
      assert multiset(all)[x] == multiset(head)[x] + multiset(tail)[x];
    }
    SubmultisetCardinality(multiset(kept), multiset(head));
  }

  lemma HeadThenTail(keys: seq<SortKey>, x: seq<Row>, tail: seq<Row>, n: nat)
    requires Sorted(keys, x) && Sorted(keys, tail) && 0 < n <= |x| && AllAfter(keys, x[n - 1], tail)
    ensures Sorted(keys, x[..n] + tail)
  {
    hide Leq;
    forall i, j | 0 <= i < n && 0 <= j < |tail|
      ensures Leq(keys, x[i], tail[j])
    {
      assert tail[j] in tail;
      if i < n - 1 {
        LeqTransitive(keys, x[i], x[n - 1], tail[j]);
      }
    }
  }

  // A sorted row list's beginning comes before each row of its end.
  lemma CutBefore(keys: seq<SortKey>, kept: seq<Row>, cut: seq<Row>, d: Row)
    requires Sorted(keys, kept + cut) && d in cut
    ensures AllBefore(keys, kept, d)
  {
    hide Leq;
    var whole := kept + cut;
    var k :| 0 <= k < |cut| && cut[k] == d;
    assert whole[|kept| + k] == d;
    forall y | y in kept
      ensures Leq(keys, y, d)
    {
      var i :| 0 <= i < |kept| && kept[i] == y;
      assert whole[i] == y;
    }
  }

  // Adding back what was cut off only adds behind the first n.
  lemma CutComesAfter(
      keys: seq<SortKey>, kept: seq<Row>, cut: seq<Row>, rest: seq<Row>, x: seq<Row>, n: nat, tail: seq<Row>)
    requires Sorted(keys, kept + cut) && |kept| == n > 0
    requires Sorted(keys, x) && multiset(x) == multiset(kept + rest) && |x| >= n
    requires multiset(tail) == multiset(x[n..] + cut)
    ensures AllAfter(keys, x[n - 1], tail)
  {
    hide Leq;
    forall d | d in tail
      ensures Leq(keys, x[n - 1], d)
    {
      SamePeople(tail, x[n..] + cut, d);
      if d in cut {
        CutBefore(keys, kept, cut, d);
        assert multiset(kept) <= multiset(kept + rest);
        NthBefore(keys, kept, x, n, d);
      } else {
        assert d in x[n..];
        var k :| 0 <= k < |x[n..]| && x[n..][k] == d;
        assert x[n + k] == d;
      }
    }
  }

  // `xs` sorted by the keys, in some order of ties.
  ghost predicate IsSortOf(keys: seq<SortKey>, ys: seq<Row>, xs: seq<Row>) {
    Sorted(keys, ys) && multiset(ys) == multiset(xs)
  }

  // Cutting one part to its first n rows does not change the first n of the whole.
  lemma CutOne(
      keys: seq<SortKey>, part: seq<Row>, sorted: seq<Row>, rest: seq<Row>, n: nat, x: seq<Row>, whole: seq<Row>)
    requires n > 0 && IsSortOf(keys, sorted, part)
    requires IsSortOf(keys, x, Take(n, sorted) + rest) && IsSortOf(keys, whole, part + rest)
    ensures Take(n, x) == Take(n, whole)
  {
    hide Leq;
    if |sorted| <= n {
      assert Take(n, sorted) == sorted;
      assert multiset(sorted + rest) == multiset(part + rest);
      SortedUnique(keys, x, whole);
    } else {
      var kept, cut := sorted[..n], sorted[n..];
      assert sorted == kept + cut;
      SameLength(x, kept + rest);
      var tail := SortedOf(keys, x[n..] + cut);
      CutComesAfter(keys, kept, cut, rest, x, n, tail);
      HeadThenTail(keys, x, tail, n);
      Reassembled(x, n, kept, cut, rest, tail);
      assert multiset(part + rest) == multiset(sorted + rest);
      SortedUnique(keys, x[..n] + tail, whole);
    }
  }

  lemma Reassembled(x: seq<Row>, n: nat, kept: seq<Row>, cut: seq<Row>, rest: seq<Row>, tail: seq<Row>)
    requires n <= |x| && multiset(x) == multiset(kept + rest) && multiset(tail) == multiset(x[n..] + cut)
    ensures multiset(x[..n] + tail) == multiset(kept + cut + rest)
  {
    assert x == x[..n] + x[n..];
    assert multiset(x[..n]) + multiset(x[n..]) == multiset(kept) + multiset(rest);
    assert multiset(x[..n] + tail) == multiset(x[..n]) + multiset(x[n..]) + multiset(cut);
  }

  // ------------------------------------------------------------ a sort exists

  lemma {:induction false} SortedOf(keys: seq<SortKey>, xs: seq<Row>) returns (ys: seq<Row>)
    ensures IsSortOf(keys, ys, xs)
    decreases |xs|
  {
    hide Leq;
    ys := [];
    if xs != [] {
      var n := |xs| - 1;
      var init := SortedOf(keys, xs[..n]);
      ys := InsertInto(keys, xs[n], init);
      assert xs == xs[..n] + [xs[n]];
    }
  }

  lemma {:induction false} InsertInto(keys: seq<SortKey>, x: Row, xs: seq<Row>) returns (ys: seq<Row>)
    requires Sorted(keys, xs)
    ensures IsSortOf(keys, ys, xs + [x])
    decreases |xs|
  {
    hide Leq;
    if xs == [] || Leq(keys, xs[|xs| - 1], x) {
      ys := xs + [x];
      forall y | y in xs
        ensures Leq(keys, y, x)
      {
        LastIsGreatest(keys, xs, y);
        LeqTransitive(keys, y, xs[|xs| - 1], x);
      }
    } else {
      var n := |xs| - 1;
      var init := InsertInto(keys, x, xs[..n]);
      LeqTotal(keys, xs[n], x);
      ys := init + [xs[n]];
      forall y | y in init
        ensures Leq(keys, y, xs[n])
      {
        SamePeople(init, xs[..n] + [x], y);
        if y != x {
          LastIsGreatest(keys, xs, y);
        }
      }
      assert xs == xs[..n] + [xs[n]];
      assert multiset(ys) == multiset(xs + [x]);
    }
  }

  // ------------------------------------------------------------ every run cut

  // `cuts[i]` is the first n rows of some sort of `parts[i]`.
  ghost predicate AreCuts(keys: seq<SortKey>, n: nat, parts: seq<seq<Row>>, sorts: seq<seq<Row>>, cuts: seq<seq<Row>>) {
    && |parts| == |sorts| == |cuts|
    && forall i :: 0 <= i < |parts| ==> IsSortOf(keys, sorts[i], parts[i]) && cuts[i] == Take(n, sorts[i])
  }

  // Local top-n then merge is global top-n.
  lemma {:induction false} CutAll(
      keys: seq<SortKey>, n: nat, parts: seq<seq<Row>>, sorts: seq<seq<Row>>, cuts: seq<seq<Row>>, rest: seq<Row>,
      x: seq<Row>, whole: seq<Row>)
    requires n > 0 && AreCuts(keys, n, parts, sorts, cuts)
    requires IsSortOf(keys, x, Concat(cuts) + rest) && IsSortOf(keys, whole, Concat(parts) + rest)
    ensures Take(n, x) == Take(n, whole)
    decreases |parts|
  {
    hide Leq, Sorted, Take;
    if parts == [] {
      SortedUnique(keys, x, whole);
    } else {
      var k := |parts| - 1;
      var mid := SortedOf(keys, Concat(parts[..k]) + (cuts[k] + rest));
      LastApart(cuts, rest);
      LastApart(parts, rest);
      CutAll(keys, n, parts[..k], sorts[..k], cuts[..k], cuts[k] + rest, x, mid);
      var others := Concat(parts[..k]) + rest;
      assert multiset(mid) == multiset(cuts[k] + others);
      CutOne(keys, parts[k], sorts[k], others, n, mid, whole);
    }
  }

  lemma LastApart(runs: seq<seq<Row>>, rest: seq<Row>)
    requires runs != []
    ensures var k := |runs| - 1;
            && multiset(Concat(runs) + rest) == multiset(Concat(runs[..k]) + (runs[k] + rest))
            && multiset(Concat(runs) + rest) == multiset(runs[k] + (Concat(runs[..k]) + rest))
  {
  }

  // ------------------------------------------------------------ the operators

  function KeyRow(keys: seq<SortKey>): Row -> Row {
    row => seq(|keys|, i requires 0 <= i < |keys| => Cell(row, keys[i].column))
  }

  function KeyRows(keys: seq<SortKey>, T: seq<Row>): seq<Row> {
    Map(KeyRow(keys), T)
  }

  // What the order says of two rows, column by column: at the first key they differ on, and so at
  // every key before which they agree, the second's value does not come first.
  ghost predicate InOrder(keys: seq<SortKey>, a: Row, b: Row) {
    forall k :: 0 <= k < |keys| && AgreeBefore(keys, k, a, b) ==>
                  !Less(keys[k], Cell(b, keys[k].column), Cell(a, keys[k].column))
  }

  ghost predicate AgreeBefore(keys: seq<SortKey>, k: int, a: Row, b: Row)
    requires k <= |keys|
  {
    forall h :: 0 <= h < k ==> Cell(a, keys[h].column) == Cell(b, keys[h].column)
  }

  ghost predicate RowsInOrder(keys: seq<SortKey>, rows: seq<Row>) {
    forall i, j :: 0 <= i < j < |rows| ==> InOrder(keys, rows[i], rows[j])
  }

  lemma {:induction false} LeqMeans(keys: seq<SortKey>, a: Row, b: Row)
    ensures Leq(keys, KeyRow(keys)(a), KeyRow(keys)(b)) <==> InOrder(keys, a, b)
    decreases |keys|
  {
    if keys != [] {
      var k, rest := keys[0], keys[1..];
      var x, y := KeyRow(keys)(a), KeyRow(keys)(b);
      assert x[1..] == KeyRow(rest)(a) && y[1..] == KeyRow(rest)(b);
      LeqMeans(rest, a, b);
      OneComesFirst(k, x[0], y[0]);
      RestInOrder(keys, a, b);
    }
  }

  lemma OneComesFirst(k: SortKey, a: Value, b: Value)
    ensures !Less(k, b, a) <==> Less(k, a, b) || a == b
    ensures !(Less(k, a, b) && a == b)
  {
  }

  lemma RestInOrder(keys: seq<SortKey>, a: Row, b: Row)
    requires keys != []
    ensures InOrder(keys, a, b) <==>
            && !Less(keys[0], Cell(b, keys[0].column), Cell(a, keys[0].column))
            && (Cell(a, keys[0].column) == Cell(b, keys[0].column) ==> InOrder(keys[1..], a, b))
  {
    hide Less;
    var rest := keys[1..];
    if Cell(a, keys[0].column) == Cell(b, keys[0].column) {
      forall k | 1 <= k <= |keys|
        ensures AgreeBefore(keys, k, a, b) <==> AgreeBefore(rest, k - 1, a, b)
      {
        if AgreeBefore(rest, k - 1, a, b) {
          forall h | 0 <= h < k
            ensures Cell(a, keys[h].column) == Cell(b, keys[h].column)
          {
            assert h > 0 ==> keys[h] == rest[h - 1];
          }
        }
        if AgreeBefore(keys, k, a, b) {
          forall h | 0 <= h < k - 1
            ensures Cell(a, rest[h].column) == Cell(b, rest[h].column)
          {
            assert rest[h] == keys[h + 1];
          }
        }
      }
      if InOrder(keys, a, b) {
        forall k | 0 <= k < |rest| && AgreeBefore(rest, k, a, b)
          ensures !Less(rest[k], Cell(b, rest[k].column), Cell(a, rest[k].column))
        {
          assert AgreeBefore(keys, k + 1, a, b) && rest[k] == keys[k + 1];
        }
      }
      if InOrder(rest, a, b) {
        forall k | 1 <= k < |keys| && AgreeBefore(keys, k, a, b)
          ensures !Less(keys[k], Cell(b, keys[k].column), Cell(a, keys[k].column))
        {
          assert AgreeBefore(rest, k - 1, a, b) && rest[k - 1] == keys[k];
        }
      }
    }
  }

  lemma SortedInOrder(keys: seq<SortKey>, rows: seq<Row>)
    requires Sorted(keys, KeyRows(keys, rows))
    ensures RowsInOrder(keys, rows)
  {
    hide Leq, InOrder;
    forall i, j | 0 <= i < j < |rows|
      ensures InOrder(keys, rows[i], rows[j])
    {
      assert Leq(keys, KeyRows(keys, rows)[i], KeyRows(keys, rows)[j]);
      LeqMeans(keys, rows[i], rows[j]);
    }
  }

  // The first rows of everything sorted are in order, and nothing left out comes before them.
  ghost predicate KeptFirst(keys: seq<SortKey>, out: seq<Row>, left: seq<Row>) {
    RowsInOrder(keys, out) && forall o, l :: o in out && l in left ==> InOrder(keys, o, l)
  }

  lemma TopNMeans(keys: seq<SortKey>, n: nat, out: seq<Row>, left: seq<Row>, input: seq<Row>)
    requires IsTopN(keys, n, out, input) && multiset(out) + multiset(left) == multiset(input)
    ensures KeptFirst(keys, out, left)
    ensures |out| == if n <= |input| then n else |input|
  {
    hide Leq, Sorted, InOrder, RowsInOrder, KeyRow, KeyRows;
    var whole := SortedOf(keys, KeyRows(keys, input));
    KeysCount(keys, input);
    KeysCount(keys, out);
    SameLength(whole, KeyRows(keys, input));
    assert KeyRows(keys, out) == Take(n, whole);
    var at := |Take(n, whole)|;
    assert whole == whole[..at] + whole[at..];
    KeysLeft(keys, out, left, input, whole, at);
    HeadSorted(keys, whole, at);
    SortedInOrder(keys, out);
    forall o, l | o in out && l in left
      ensures InOrder(keys, o, l)
    {
      HeadBeforeRest(keys, whole, at, out, left, o, l);
    }
  }

  lemma HeadSorted(keys: seq<SortKey>, whole: seq<Row>, at: nat)
    requires Sorted(keys, whole) && at <= |whole|
    ensures Sorted(keys, whole[..at])
  {
    hide Leq;
  }

  lemma KeysLeft(keys: seq<SortKey>, out: seq<Row>, left: seq<Row>, input: seq<Row>, whole: seq<Row>, at: nat)
    requires multiset(out) + multiset(left) == multiset(input) && multiset(whole) == multiset(KeyRows(keys, input))
    requires at <= |whole| && KeyRows(keys, out) == whole[..at]
    ensures multiset(KeyRows(keys, left)) == multiset(whole[at..])
  {
    hide *;
    assert multiset(out + left) == multiset(input);
    KeysPermute(keys, out + left, input);
    KeysThen(keys, out, left);
    assert whole == whole[..at] + whole[at..];
    Cancel(multiset(whole[..at]), multiset(KeyRows(keys, left)), multiset(whole[at..]));
  }

  lemma KeysThen(keys: seq<SortKey>, a: seq<Row>, b: seq<Row>)
    ensures KeyRows(keys, a + b) == KeyRows(keys, a) + KeyRows(keys, b)
  {
  }

  lemma HeadBeforeRest(
      keys: seq<SortKey>, whole: seq<Row>, at: nat, out: seq<Row>, left: seq<Row>, o: Row, l: Row)
    requires Sorted(keys, whole) && at <= |whole| && KeyRows(keys, out) == whole[..at]
    requires multiset(KeyRows(keys, left)) == multiset(whole[at..]) && o in out && l in left
    ensures InOrder(keys, o, l)
  {
    hide Leq, InOrder, KeyRow;
    var i :| 0 <= i < |out| && out[i] == o;
    var k :| 0 <= k < |left| && left[k] == l;
    assert KeyRows(keys, out)[i] == whole[i] == KeyRow(keys)(o);
    SamePeople(KeyRows(keys, left), whole[at..], KeyRows(keys, left)[k]);
    var j :| 0 <= j < |whole[at..]| && whole[at..][j] == KeyRow(keys)(l);
    assert Leq(keys, whole[i], whole[at + j]);
    LeqMeans(keys, o, l);
  }

  /** The library's sort, ties in an order it does not promise. */
  method SortedGather(keys: seq<SortKey>, T: seq<Row>) returns (s: seq<Row>)
    ensures multiset(s) == multiset(T)
    ensures Sorted(keys, KeyRows(keys, s))
  {
    hide Leq;
    s := [];
    for i := 0 to |T|
      invariant multiset(s) == multiset(T[..i])
      invariant Sorted(keys, KeyRows(keys, s))
    {
      assert T[..i + 1] == T[..i] + [T[i]];
      s := InsertRow(keys, T[i], s);
    }
    assert T[..|T|] == T;
  }

  method InsertRow(keys: seq<SortKey>, x: Row, xs: seq<Row>) returns (ys: seq<Row>)
    requires Sorted(keys, KeyRows(keys, xs))
    ensures multiset(ys) == multiset(xs + [x])
    ensures Sorted(keys, KeyRows(keys, ys))
    decreases |xs|
  {
    hide Leq;
    var at := |xs|;
    while at > 0 && !Leq(keys, KeyRow(keys)(xs[at - 1]), KeyRow(keys)(x))
      invariant 0 <= at <= |xs|
      invariant forall j :: at <= j < |xs| ==> Leq(keys, KeyRow(keys)(x), KeyRow(keys)(xs[j]))
    {
      at := at - 1;
      LeqTotal(keys, KeyRow(keys)(xs[at]), KeyRow(keys)(x));
    }
    ys := xs[..at] + [x] + xs[at..];
    InsertedPermutes(keys, x, xs, at);
    InsertedSorted(keys, KeyRow(keys)(x), KeyRows(keys, xs), at);
  }

  lemma InsertedPermutes(keys: seq<SortKey>, x: Row, xs: seq<Row>, at: nat)
    requires at <= |xs|
    ensures var ys := xs[..at] + [x] + xs[at..];
            && multiset(ys) == multiset(xs + [x])
            && KeyRows(keys, ys) == KeyRows(keys, xs)[..at] + [KeyRow(keys)(x)] + KeyRows(keys, xs)[at..]
  {
    InsertedSame(x, xs, at);
    hide KeyRow;
  }

  lemma InsertedSame<T>(x: T, xs: seq<T>, at: nat)
    requires at <= |xs|
    ensures multiset(xs[..at] + [x] + xs[at..]) == multiset(xs + [x])
  {
    assert xs == xs[..at] + xs[at..];
  }

  lemma InsertedSorted(keys: seq<SortKey>, x: Row, xs: seq<Row>, at: nat)
    requires Sorted(keys, xs) && at <= |xs|
    requires at > 0 ==> Leq(keys, xs[at - 1], x)
    requires forall j :: at <= j < |xs| ==> Leq(keys, x, xs[j])
    ensures Sorted(keys, xs[..at] + [x] + xs[at..])
  {
    hide Leq;
    forall i | 0 <= i < at
      ensures Leq(keys, xs[i], x)
    {
      if i < at - 1 {
        LeqTransitive(keys, xs[i], xs[at - 1], x);
      }
    }
  }

  // A cut to `fetch` rows: the limit is narrowed to a row count first, and a negative one is no
  // range of rows.
  datatype Cut = CutThrows | CutTo(table: seq<Row>)

  function CutRows(fetch: int, rows: seq<Row>): Cut {
    if AsSize(fetch) < 0 then CutThrows else CutTo(Take(AsSize(fetch), rows))
  }

  // The narrowing is harmless exactly for limits that fit it and for tables no longer than what is
  // left of the limit.
  lemma NarrowedCut(n: nat, rows: seq<Row>)
    ensures CutRows(n, rows) == CutTo(Take(n, rows)) <==> n < 0x8000_0000 || |rows| <= AsSize(n)
  {
    if n >= 0x8000_0000 && 0 <= AsSize(n) < |rows| {
      assert |Take(AsSize(n), rows)| < |Take(n, rows)|;
    }
  }

  /** CudfSort: sort, then cut to `fetch` if that is positive. Without keys the input is handed on
      whole. */
  method ExecuteSort(keys: seq<SortKey>, fetch: int, input: seq<Row>) returns (r: Cut, ghost sorted: seq<Row>)
    ensures keys == [] ==> r == CutTo(input)
    ensures multiset(sorted) == multiset(input) && (keys != [] ==> Sorted(keys, KeyRows(keys, sorted)))
    ensures keys != [] ==> RowsInOrder(keys, sorted)
    ensures keys != [] ==> r == if fetch > 0 then CutRows(fetch, sorted) else CutTo(sorted)
  {
    if keys == [] {
      return CutTo(input), input;
    }
    var result := SortedGather(keys, input);
    sorted := result;
    SortedInOrder(keys, sorted);
    if fetch > 0 {
      return CutRows(fetch, result), sorted;
    }
    return CutTo(result), sorted;
  }

  /** The library's k-way merge of sorted runs. */
  method MergeRuns(keys: seq<SortKey>, runs: seq<seq<Row>>) returns (m: seq<Row>)
    requires forall i :: 0 <= i < |runs| ==> Sorted(keys, KeyRows(keys, runs[i]))
    ensures multiset(m) == multiset(Concat(runs)) && Sorted(keys, KeyRows(keys, m))
  {
    m := SortedGather(keys, Concat(runs));
  }

  // A merge's sort key: a column, or an expression it cannot merge by.
  datatype MergeKey = OnColumn(key: SortKey) | OnExpression

  function ColumnKeys(exprs: seq<MergeKey>): (keys: seq<SortKey>)
    requires OnExpression !in exprs
    ensures |keys| == |exprs| && forall i :: 0 <= i < |exprs| ==> exprs[i] == OnColumn(keys[i])
  {
    assert forall i :: 0 <= i < |exprs| ==> exprs[i] in exprs && exprs[i].OnColumn?;
    seq(|exprs|, i requires 0 <= i < |exprs| => exprs[i].key)
  }

  predicate Merges(exprs: seq<MergeKey>, runs: seq<seq<Row>>) {
    exprs != [] && |runs| > 1
  }

  datatype Collapsed = NoColumns | ExpressionKey | CutFails | Collapsed(table: seq<Row>)

  /** The collapse of N partitions into one. Two or more runs with sort keys, each a column, are
      merged and cut to `fetch` if it is not negative; otherwise the partitions are concatenated,
      and no cut is made. No partition at all is refused, and so is merging by an expression. */
  method Collapse(exprs: seq<MergeKey>, fetch: int, runs: seq<seq<Row>>) returns (r: Collapsed, ghost merged: seq<Row>)
    requires Merges(exprs, runs) && OnExpression !in exprs ==>
      forall i :: 0 <= i < |runs| ==> Sorted(ColumnKeys(exprs), KeyRows(ColumnKeys(exprs), runs[i]))
    ensures r == NoColumns <==> runs == []
    ensures r == ExpressionKey <==> Merges(exprs, runs) && OnExpression in exprs
    ensures r == CutFails <==> Merges(exprs, runs) && OnExpression !in exprs && fetch >= 0 && AsSize(fetch) < 0
    ensures r.Collapsed? ==> multiset(merged) == multiset(Concat(runs))
    ensures r.Collapsed? && !Merges(exprs, runs) ==> r.table == merged == Concat(runs)
    ensures r.Collapsed? && Merges(exprs, runs) ==>
      && Sorted(ColumnKeys(exprs), KeyRows(ColumnKeys(exprs), merged)) && RowsInOrder(ColumnKeys(exprs), merged)
      && CutTo(r.table) == if fetch >= 0 then CutRows(fetch, merged) else CutTo(merged)
  {
    merged := [];
    if runs == [] {
      return NoColumns, merged;
    }
    if exprs != [] && |runs| > 1 {
      var keys: seq<SortKey> := [];
      for i := 0 to |exprs|
        invariant |keys| == i && forall k :: 0 <= k < i ==> exprs[k] == OnColumn(keys[k])
      {
        if exprs[i].OnExpression? {
          return ExpressionKey, merged;
        }
        keys := keys + [exprs[i].key];
      }
      assert keys == ColumnKeys(exprs);
      var m := MergeRuns(keys, runs);
      merged := m;
      SortedInOrder(keys, m);
      var cut := if fetch >= 0 then CutRows(fetch, m) else CutTo(m);
      if cut.CutThrows? {
        return CutFails, merged;
      }
      return Collapsed(cut.table), merged;
    }
    return Collapsed(Concat(runs)), Concat(runs);
  }

  lemma KeysOfTake(keys: seq<SortKey>, n: nat, T: seq<Row>)
    ensures KeyRows(keys, Take(n, T)) == Take(n, KeyRows(keys, T))
  {
  }

  lemma KeysPermute(keys: seq<SortKey>, a: seq<Row>, b: seq<Row>)
    requires multiset(a) == multiset(b)
    ensures multiset(KeyRows(keys, a)) == multiset(KeyRows(keys, b))
  {
    MapPermutes(KeyRow(keys), a, b);
  }

  function KeyRuns(keys: seq<SortKey>, runs: seq<seq<Row>>): (r: seq<seq<Row>>)
    ensures |r| == |runs| && forall i :: 0 <= i < |runs| ==> r[i] == KeyRows(keys, runs[i])
  {
    seq(|runs|, i requires 0 <= i < |runs| => KeyRows(keys, runs[i]))
  }

  lemma {:induction false} KeysOfConcat(keys: seq<SortKey>, runs: seq<seq<Row>>)
    ensures KeyRows(keys, Concat(runs)) == Concat(KeyRuns(keys, runs))
    decreases |runs|
  {
    if runs != [] {
      var k := |runs| - 1;
      KeysOfConcat(keys, runs[..k]);
      assert KeyRuns(keys, runs)[..k] == KeyRuns(keys, runs[..k]);
      MapThen(KeyRow(keys), Concat(runs[..k]), runs[k]);
    }
  }

  // `out` has the keys of the first `n` rows of everything sorted.
  ghost predicate IsTopN(keys: seq<SortKey>, n: nat, out: seq<Row>, input: seq<Row>) {
    forall whole :: IsSortOf(keys, whole, KeyRows(keys, input)) ==> KeyRows(keys, out) == Take(n, whole)
  }

  lemma TopNFromRuns(
      keys: seq<SortKey>, n: nat, parts: seq<seq<Row>>, sorts: seq<seq<Row>>, runs: seq<seq<Row>>, merged: seq<Row>)
    requires n > 0 && |parts| == |sorts| == |runs|
    requires forall i :: 0 <= i < |parts| ==>
               && multiset(sorts[i]) == multiset(parts[i]) && Sorted(keys, KeyRows(keys, sorts[i]))
               && runs[i] == Take(n, sorts[i])
    requires multiset(merged) == multiset(Concat(runs)) && Sorted(keys, KeyRows(keys, merged))
    ensures IsTopN(keys, n, Take(n, merged), Concat(parts))
  {
    hide Leq, Sorted, KeyRows;
    var kp, ks, kr := KeyRuns(keys, parts), KeyRuns(keys, sorts), KeyRuns(keys, runs);
    forall i | 0 <= i < |parts|
      ensures IsSortOf(keys, ks[i], kp[i]) && kr[i] == Take(n, ks[i])
    {
      KeysPermute(keys, sorts[i], parts[i]);
      KeysOfTake(keys, n, sorts[i]);
    }
    KeysPermute(keys, merged, Concat(runs));
    KeysOfConcat(keys, runs);
    KeysOfConcat(keys, parts);
    KeysOfTake(keys, n, merged);
    forall whole | IsSortOf(keys, whole, KeyRows(keys, Concat(parts)))
      ensures KeyRows(keys, Take(n, merged)) == Take(n, whole)
    {
      assert Concat(kr) + [] == Concat(kr) && Concat(kp) + [] == Concat(kp);
      CutAll(keys, n, kp, ks, kr, [], KeyRows(keys, merged), whole);
    }
  }

  // The first `m` rows are the first `n` exactly when the two limits are one, or there are no more
  // rows than the smaller.
  lemma SmallerLimit(keys: seq<SortKey>, m: nat, n: nat, out: seq<Row>, input: seq<Row>)
    requires m <= n && IsTopN(keys, m, out, input)
    ensures IsTopN(keys, n, out, input) <==> m == n || |input| <= m
  {
    hide Leq, Sorted;
    var whole := SortedOf(keys, KeyRows(keys, input));
    KeysCount(keys, input);
    SameLength(whole, KeyRows(keys, input));
    forall w | IsSortOf(keys, w, KeyRows(keys, input))
      ensures |w| == |input|
    {
      SameLength(w, KeyRows(keys, input));
    }
    assert KeyRows(keys, out) == Take(m, whole);
  }

  lemma NothingIsTopZero(keys: seq<SortKey>, input: seq<Row>)
    ensures IsTopN(keys, 0, [], input)
  {
  }

  /** ORDER BY ... LIMIT n over partitions: each sorted and cut, then collapsed and cut. What comes
      out is the global top n for the limit as it was narrowed, so for `n` itself exactly when it
      fits the narrowing or the rows are no more than what is left of it. LIMIT 0 over a single
      partition is not cut at all. Whatever the limit, the rows that come out are in order and none
      of the others, in `left`, comes before one of them. */
  method TopN(keys: seq<SortKey>, n: nat, parts: seq<seq<Row>>) returns (r: Cut, ghost left: seq<Row>)
    requires keys != [] && parts != []
    ensures r.CutThrows? <==> AsSize(n) < 0
    ensures r.CutTo? ==> multiset(r.table) + multiset(left) == multiset(Concat(parts))
    ensures r.CutTo? ==> KeptFirst(keys, r.table, left)
    ensures r.CutTo? ==>
      |r.table| == if (n > 0 || |parts| > 1) && AsSize(n) <= |Concat(parts)| then AsSize(n) else |Concat(parts)|
    ensures r.CutTo? && (n > 0 || |parts| > 1) ==> IsTopN(keys, AsSize(n), r.table, Concat(parts))
    ensures r.CutTo? && IsTopN(keys, n, r.table, Concat(parts)) <==>
              if n == 0 && |parts| == 1 then Concat(parts) == []
              else n < 0x8000_0000 || |Concat(parts)| <= AsSize(n)
  {
    hide Leq, Sorted, IsTopN, KeyRows, AsSize, Concat, KeptFirst, RowsInOrder, ColumnKeys, OnColumns, Take, Map;
    var ok, runs, sorts, cut := SortEach(keys, n, parts);
    left := cut;
    if !ok {
      return CutThrows, left;
    }
    var exprs := OnColumns(keys);
    var c, merged := Collapse(exprs, n, runs);
    if |parts| == 1 {
      OneConcat(parts);
      OneConcat(runs);
      LonePart(keys, n, parts[0], sorts[0], runs[0]);
      LoneInOrder(keys, n, runs[0], left, parts[0]);
    } else {
      left := ManyInOrder(keys, n, parts, sorts, runs, merged, c.table, left);
    }
    return CutTo(c.table), left;
  }

  function OnColumns(keys: seq<SortKey>): (exprs: seq<MergeKey>)
    ensures OnExpression !in exprs && |exprs| == |keys| && ColumnKeys(exprs) == keys
  {
    seq(|keys|, i requires 0 <= i < |keys| => OnColumn(keys[i]))
  }

  // `sort` is a sort of the partition and `run` what its own cut leaves of it.
  ghost predicate IsRunOf(keys: seq<SortKey>, n: nat, part: seq<Row>, sort: seq<Row>, run: seq<Row>) {
    && multiset(sort) == multiset(part) && Sorted(keys, KeyRows(keys, sort))
    && AsSize(n) >= 0 && run == (if n > 0 then Take(AsSize(n), sort) else sort)
    && Sorted(keys, KeyRows(keys, run))
  }

  method SortAndCut(keys: seq<SortKey>, n: nat, part: seq<Row>) returns (run: Cut, ghost sort: seq<Row>)
    requires keys != []
    ensures run.CutThrows? <==> AsSize(n) < 0
    ensures run.CutTo? ==> IsRunOf(keys, n, part, sort, run.table) && run.table <= sort
    ensures run.CutTo? && n == 0 ==> run.table == sort
  {
    hide Leq, Sorted, KeyRows, RowsInOrder;
    run, sort := ExecuteSort(keys, n, part);
    if run.CutTo? && n > 0 {
      TakeSorted(keys, AsSize(n), sort);
    }
  }

  // Every partition sorted and cut; `left` is what the cuts left out.
  method SortEach(keys: seq<SortKey>, n: nat, parts: seq<seq<Row>>)
    returns (ok: bool, runs: seq<seq<Row>>, ghost sorts: seq<seq<Row>>, ghost left: seq<Row>)
    requires keys != [] && parts != []
    ensures ok <==> AsSize(n) >= 0
    ensures ok ==> |runs| == |sorts| == |parts|
    ensures ok ==> forall k :: 0 <= k < |parts| ==> IsRunOf(keys, n, parts[k], sorts[k], runs[k])
    ensures ok ==> multiset(Concat(runs)) + multiset(left) == multiset(Concat(parts))
    ensures ok && n == 0 ==> left == []
  {
    hide *;
    runs, sorts, left := [], [], [];
    NoneCut(parts);
    for i := 0 to |parts|
      invariant |runs| == |sorts| == i && (i > 0 ==> AsSize(n) >= 0)
      invariant forall k :: 0 <= k < i ==> IsRunOf(keys, n, parts[k], sorts[k], runs[k])
      invariant multiset(Concat(runs)) + multiset(left) == multiset(Concat(parts[..i]))
      invariant n == 0 ==> left == []
    {
      var run, s := SortAndCut(keys, n, parts[i]);
      if run.CutThrows? {
        return false, runs, sorts, left;
      }
      RunPermutes(keys, n, parts[i], s, run.table);
      OneMoreCut(parts, i, runs, run.table, s, left);
      left := left + s[|run.table|..];
      runs, sorts := runs + [run.table], sorts + [s];
    }
    assert parts[..|parts|] == parts;
    ok := true;
  }

  lemma RunPermutes(keys: seq<SortKey>, n: nat, part: seq<Row>, sort: seq<Row>, run: seq<Row>)
    requires IsRunOf(keys, n, part, sort, run)
    ensures multiset(sort) == multiset(part)
  {
  }

  lemma NoneCut(parts: seq<seq<Row>>)
    ensures parts[..0] == [] && Concat<Row>([]) == []
  {
  }

  // What one more run leaves out joins what the runs before it left out.
  lemma OneMoreCut(parts: seq<seq<Row>>, i: nat, runs: seq<seq<Row>>, run: seq<Row>, s: seq<Row>, left: seq<Row>)
    requires i < |parts| && multiset(s) == multiset(parts[i]) && run <= s
    requires multiset(Concat(runs)) + multiset(left) == multiset(Concat(parts[..i]))
    ensures multiset(Concat(runs + [run])) + multiset(left + s[|run|..]) == multiset(Concat(parts[..i + 1]))
  {
    ConcatUpto(parts, i + 1);
    ConcatThen(runs, [run]);
    ConcatOne(run);
    hide *;
    assert s == run + s[|run|..];
    AddApart(Concat(runs), left, Concat(parts[..i]), run, s[|run|..], parts[i]);
  }

  lemma AddApart(a: seq<Row>, b: seq<Row>, c: seq<Row>, a': seq<Row>, b': seq<Row>, c': seq<Row>)
    requires multiset(a) + multiset(b) == multiset(c) && multiset(a' + b') == multiset(c')
    ensures multiset(a + a') + multiset(b + b') == multiset(c + c')
  {
  }

  lemma MergedCut(runs: seq<seq<Row>>, merged: seq<Row>, out: seq<Row>, left: seq<Row>)
    requires multiset(merged) == multiset(Concat(runs)) && out <= merged
    ensures multiset(out) + multiset(merged[|out|..] + left) == multiset(Concat(runs)) + multiset(left)
  {
    assert merged == out + merged[|out|..];
  }

  lemma LoneInOrder(keys: seq<SortKey>, n: nat, out: seq<Row>, left: seq<Row>, input: seq<Row>)
    requires multiset(out) + multiset(left) == multiset(input) && AsSize(n) >= 0
    requires n > 0 ==> IsTopN(keys, AsSize(n), out, input)
    requires n == 0 ==> Sorted(keys, KeyRows(keys, out)) && left == []
    ensures KeptFirst(keys, out, left)
    ensures |out| == if n > 0 && AsSize(n) <= |input| then AsSize(n) else |input|
  {
    if n > 0 {
      TopNMeans(keys, AsSize(n), out, left, input);
    } else {
      SortedInOrder(keys, out);
      SameLength(out, input);
    }
  }

  lemma ManyInOrder(
      keys: seq<SortKey>, n: nat, parts: seq<seq<Row>>, sorts: seq<seq<Row>>, runs: seq<seq<Row>>, merged: seq<Row>,
      out: seq<Row>, cut: seq<Row>)
    returns (left: seq<Row>)
    requires |parts| == |sorts| == |runs| > 1 && AsSize(n) >= 0
    requires forall i :: 0 <= i < |parts| ==>
               && multiset(sorts[i]) == multiset(parts[i]) && Sorted(keys, KeyRows(keys, sorts[i]))
               && runs[i] == if n > 0 then Take(AsSize(n), sorts[i]) else sorts[i]
    requires multiset(merged) == multiset(Concat(runs)) && Sorted(keys, KeyRows(keys, merged))
    requires out == Take(AsSize(n), merged)
    requires multiset(Concat(runs)) + multiset(cut) == multiset(Concat(parts))
    ensures IsTopN(keys, AsSize(n), out, Concat(parts))
    ensures IsTopN(keys, n, out, Concat(parts)) <==> n < 0x8000_0000 || |Concat(parts)| <= AsSize(n)
    ensures multiset(out) + multiset(left) == multiset(Concat(parts))
    ensures KeptFirst(keys, out, left)
    ensures |out| == if AsSize(n) <= |Concat(parts)| then AsSize(n) else |Concat(parts)|
  {
    hide Leq, Sorted, IsTopN, KeyRows, Concat, KeptFirst, RowsInOrder;
    if AsSize(n) > 0 {
      TopNFromRuns(keys, AsSize(n), parts, sorts, runs, merged);
    } else {
      NothingIsTopZero(keys, Concat(parts));
    }
    SmallerLimit(keys, AsSize(n), n, out, Concat(parts));
    MergedCut(runs, merged, out, cut);
    left := merged[|out|..] + cut;
    TopNMeans(keys, AsSize(n), out, left, Concat(parts));
  }

  lemma OneConcat(runs: seq<seq<Row>>)
    requires |runs| == 1
    ensures Concat(runs) == runs[0]
  {
    assert runs[..0] == [];
  }

  // A single partition: only its own cut counts.
  lemma LonePart(keys: seq<SortKey>, n: nat, part: seq<Row>, sorted: seq<Row>, run: seq<Row>)
    requires multiset(sorted) == multiset(part) && Sorted(keys, KeyRows(keys, sorted)) && AsSize(n) >= 0
    requires run == if n > 0 then Take(AsSize(n), sorted) else sorted
    ensures n > 0 ==> IsTopN(keys, AsSize(n), run, part)
    ensures IsTopN(keys, n, run, part) <==> if n == 0 then part == [] else n < 0x8000_0000 || |part| <= AsSize(n)
  {
    hide Leq, Sorted, KeyRows, AsSize;
    KeysPermute(keys, sorted, part);
    var ks := KeyRows(keys, sorted);
    assert IsSortOf(keys, ks, KeyRows(keys, part));
    forall whole | IsSortOf(keys, whole, KeyRows(keys, part))
      ensures whole == ks
    {
      SortedUnique(keys, whole, ks);
    }
    SameLength(sorted, part);
    KeysCount(keys, sorted);
    if n > 0 {
      KeysOfTake(keys, AsSize(n), sorted);
      SmallerLimit(keys, AsSize(n), n, run, part);
    }
  }

  // What a limit asks of a collapse: the whole in order, cut unless the limit is negative.
  ghost predicate Limited(keys: seq<SortKey>, fetch: int, out: seq<Row>, input: seq<Row>) {
    forall whole :: IsSortOf(keys, whole, KeyRows(keys, input)) ==>
                      KeyRows(keys, out) == if fetch >= 0 then Take(fetch, whole) else whole
  }

  // A single run is handed on without its limit, and a merge narrows it. So the collapse honours
  // the limit exactly when a merge had none, one that fits or no more rows than what is left of it,
  // and a single run had none or no more rows than it.
  lemma CollapseLimits(
      keys: seq<SortKey>, fetch: int, runs: seq<seq<Row>>, merged: seq<Row>, r: Cut)
    requires keys != [] && runs != [] && forall i :: 0 <= i < |runs| ==> Sorted(keys, KeyRows(keys, runs[i]))
    requires multiset(merged) == multiset(Concat(runs))
    requires |runs| > 1 ==> Sorted(keys, KeyRows(keys, merged))
    requires |runs| > 1 ==> r == if fetch >= 0 then CutRows(fetch, merged) else CutTo(merged)
    requires |runs| == 1 ==> r == CutTo(merged) && merged == Concat(runs)
    ensures r.CutTo? && Limited(keys, fetch, r.table, Concat(runs)) <==>
              if |runs| > 1 then fetch < 0x8000_0000 || |Concat(runs)| <= AsSize(fetch)
              else fetch < 0 || |runs[0]| <= fetch
  {
    hide Leq, Sorted, KeyRows, AsSize;
    KeysPermute(keys, merged, Concat(runs));
    var km := KeyRows(keys, merged);
    KeysCount(keys, merged);
    SameLength(merged, Concat(runs));
    if |runs| == 1 {
      assert runs[..0] == [] && Concat(runs) == runs[0];
    }
    assert IsSortOf(keys, km, KeyRows(keys, Concat(runs)));
    forall whole | IsSortOf(keys, whole, KeyRows(keys, Concat(runs)))
      ensures whole == km
    {
      SortedUnique(keys, whole, km);
    }
    if fetch >= 0 {
      KeysOfTake(keys, fetch, merged);
      if r.CutTo? && |runs| > 1 {
        KeysOfTake(keys, AsSize(fetch), merged);
        assert |Take(AsSize(fetch), km)| == |Take(fetch, km)| <==> AsSize(fetch) == fetch || |km| <= AsSize(fetch);
      }
    }
  }

  // Two rows under LIMIT 4294967297 come out of a merge as one, and LIMIT 2147483648 fails.
  lemma LimitWraps(a: Row, b: Row)
    ensures CutRows(0x1_0000_0001, [a, b]) == CutTo([a]) != CutTo(Take(0x1_0000_0001, [a, b]))
    ensures CutRows(0x8000_0000, [a, b]) == CutThrows
  {
    assert [a, b][..1] == [a];
  }

  lemma KeysCount(keys: seq<SortKey>, T: seq<Row>)
    ensures |KeyRows(keys, T)| == |T|
  {
  }

  // One run of two rows under LIMIT 1 comes out with both.
  lemma OneRunIsNotCut()
    ensures var keys := [SortKey(0, true, true)];
            var run := [[Num(1)], [Num(2)]];
            Sorted(keys, KeyRows(keys, run)) && !Limited(keys, 1, run, Concat([run]))
  {
    var keys := [SortKey(0, true, true)];
    var run := [[Num(1)], [Num(2)]];
    forall i | 0 <= i < |run|
      ensures KeyRow(keys)(run[i]) == run[i]
    {
      assert KeyRow(keys)(run[i]) == [run[i][0]];
    }
    assert KeyRows(keys, run) == run;
    assert Leq(keys, [Num(1)], [Num(2)]);
    CollapseLimits(keys, 1, [run], run, CutTo(run));
  }

  lemma TakeSorted(keys: seq<SortKey>, n: nat, T: seq<Row>)
    requires Sorted(keys, KeyRows(keys, T))
    ensures Sorted(keys, KeyRows(keys, Take(n, T)))
  {
  }
}
