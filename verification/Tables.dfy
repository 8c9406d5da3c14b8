/**
  Lists of rows as multisets: mapping, masking, and lists that hold the same things in another
  order. A table's answer is its multiset of rows, so this is where orders that the device
  leaves unspecified stop mattering.
 */
module Tables {
  import opened Basics

  function Map<T, U>(f: T -> U, xs: seq<T>): (ys: seq<U>)
    ensures |ys| == |xs|
    ensures forall i :: 0 <= i < |xs| ==> ys[i] == f(xs[i])
  {
    seq(|xs|, i requires 0 <= i < |xs| => f(xs[i]))
  }

  function Where<T>(keep: T -> bool, xs: seq<T>): (ys: seq<T>) {
    if xs == [] then []
    else Where(keep, xs[..|xs| - 1]) + if keep(xs[|xs| - 1]) then [xs[|xs| - 1]] else []
  }

  // `apply_boolean_mask`
  function Masked<T>(xs: seq<T>, mask: seq<bool>): (ys: seq<T>)
    requires |mask| == |xs|
  {
    if xs == [] then []
    else
      var n := |xs| - 1;
      Masked(xs[..n], mask[..n]) + if mask[n] then [xs[n]] else []
  }

  // Tables one under the other.
  function Concat<T>(parts: seq<seq<T>>): seq<T> {
    if parts == [] then [] else Concat(parts[..|parts| - 1]) + parts[|parts| - 1]
  }

  lemma {:induction false} MaskedIsWhere<T>(keep: T -> bool, xs: seq<T>, mask: seq<bool>)
    requires |mask| == |xs| && forall i :: 0 <= i < |xs| ==> mask[i] == keep(xs[i])
    ensures Masked(xs, mask) == Where(keep, xs)
    decreases |xs|
  {
    if xs != [] {
      MaskedIsWhere(keep, xs[..|xs| - 1], mask[..|xs| - 1]);
    }
  }

  lemma {:induction false} WhereThen<T>(keep: T -> bool, xs: seq<T>, ys: seq<T>)
    ensures Where(keep, xs + ys) == Where(keep, xs) + Where(keep, ys)
    decreases |ys|
  {
    if ys == [] {
      assert xs + ys == xs;
    } else {
      var n := |ys| - 1;
      assert (xs + ys)[..|xs + ys| - 1] == xs + ys[..n];
      WhereThen(keep, xs, ys[..n]);
    }
  }

  lemma {:induction false} WhereHolds<T>(keep: T -> bool, xs: seq<T>, x: T)
    ensures x in Where(keep, xs) <==> x in xs && keep(x)
    decreases |xs|
  {
    if xs != [] {
      WhereHolds(keep, xs[..|xs| - 1], x);
      assert xs == xs[..|xs| - 1] + [xs[|xs| - 1]];
    }
  }

  // Filtering keeps all of a kind or none.
  lemma {:induction false} WhereCount<T>(keep: T -> bool, xs: seq<T>, x: T)
    ensures multiset(Where(keep, xs))[x] == if keep(x) then multiset(xs)[x] else 0
    decreases |xs|
  {
    if xs != [] {
      var init, last := xs[..|xs| - 1], xs[|xs| - 1];
      WhereCount(keep, init, x);
      assert xs == init + [last];
      assert multiset(xs) == multiset(init) + multiset{last};
    }
  }

  lemma {:induction false} WhereSame<T>(f: T -> bool, g: T -> bool, xs: seq<T>)
    requires forall x :: x in xs ==> f(x) == g(x)
    ensures Where(f, xs) == Where(g, xs)
    decreases |xs|
  {
    if xs != [] {
      WhereSame(f, g, xs[..|xs| - 1]);
    }
  }

  lemma {:induction false} WhereNone<T>(keep: T -> bool, xs: seq<T>)
    requires forall x :: x in xs ==> !keep(x)
    ensures Where(keep, xs) == []
    decreases |xs|
  {
    if xs != [] {
      WhereNone(keep, xs[..|xs| - 1]);
    }
  }

  lemma {:induction false} WhereAll<T>(keep: T -> bool, xs: seq<T>)
    requires forall x :: x in xs ==> keep(x)
    ensures Where(keep, xs) == xs
    decreases |xs|
  {
    if xs != [] {
      WhereAll(keep, xs[..|xs| - 1]);
    }
  }

  lemma {:induction false} WhereOnly<T>(keep: T -> bool, xs: seq<T>, at: nat)
    requires at < |xs| && forall i :: 0 <= i < |xs| ==> keep(xs[i]) == (i == at)
    ensures Where(keep, xs) == [xs[at]]
    decreases |xs|
  {
    var n := |xs| - 1;
    if at == n {
      WhereNone(keep, xs[..n]);
    } else {
      WhereOnly(keep, xs[..n], at);
    }
  }

  lemma {:induction false} WhereNested<T>(f: T -> bool, g: T -> bool, xs: seq<T>)
    requires forall x :: x in xs && f(x) ==> g(x)
    ensures Where(f, Where(g, xs)) == Where(f, xs)
    decreases |xs|
  {
    if xs != [] {
      var n := |xs| - 1;
      WhereNested(f, g, xs[..n]);
      assert xs[n] in xs;
      WhereThen(f, Where(g, xs[..n]), if g(xs[n]) then [xs[n]] else []);
    }
  }

  lemma {:induction false} WhereNoDup<T(!new)>(keep: T -> bool, xs: seq<T>)
    requires NoDup(xs)
    ensures NoDup(Where(keep, xs))
    decreases |xs|
  {
    if xs != [] {
      var init, last := xs[..|xs| - 1], xs[|xs| - 1];
      WhereNoDup(keep, init);
      WhereHolds(keep, init, last);
      assert last !in init;
    }
  }

  lemma MapThen<T, U>(f: T -> U, xs: seq<T>, ys: seq<T>)
    ensures Map(f, xs + ys) == Map(f, xs) + Map(f, ys)
  {
  }

  lemma MapLast<T, U>(f: T -> U, xs: seq<T>)
    requires xs != []
    ensures Map(f, xs) == Map(f, xs[..|xs| - 1]) + [f(xs[|xs| - 1])]
  {
  }

  // A list without duplicates holds each of its elements once.
  lemma {:induction false} NoDupCount<T(!new)>(xs: seq<T>, x: T)
    requires NoDup(xs)
    ensures multiset(xs)[x] == if x in xs then 1 else 0
    decreases |xs|
  {
    if xs != [] {
      var init, last := xs[..|xs| - 1], xs[|xs| - 1];
      assert xs == init + [last];
      NoDupCount(init, x);
      assert last !in init;
    }
  }

  lemma SameElements<T(!new)>(xs: seq<T>, ys: seq<T>)
    requires NoDup(xs) && NoDup(ys) && forall x :: x in xs <==> x in ys
    ensures multiset(xs) == multiset(ys)
  {
    forall x
      ensures multiset(xs)[x] == multiset(ys)[x]
    {
      NoDupCount(xs, x);
      NoDupCount(ys, x);
    }
  }

  // The last of a list, found in a reordering of it.
  lemma PullOut<T>(xs: seq<T>, ys: seq<T>) returns (a: seq<T>, b: seq<T>)
    requires xs != [] && multiset(xs) == multiset(ys)
    ensures ys == a + ([xs[|xs| - 1]] + b)
    ensures multiset(xs[..|xs| - 1]) == multiset(b + a)
    ensures xs == xs[..|xs| - 1] + [xs[|xs| - 1]]
  {
    var x := xs[|xs| - 1];
    assert xs == xs[..|xs| - 1] + [x];
    assert x in multiset(ys);
    var k :| 0 <= k < |ys| && ys[k] == x;
    a, b := ys[..k], ys[k + 1..];
    assert ys == a + ([x] + b);
    assert multiset(xs[..|xs| - 1]) == multiset(ys) - multiset{x} == multiset(b + a);
  }

  // Mapping respects reordering.
  lemma {:induction false} MapPermutes<T, U>(f: T -> U, xs: seq<T>, ys: seq<T>)
    requires multiset(xs) == multiset(ys)
    ensures multiset(Map(f, xs)) == multiset(Map(f, ys))
    decreases |xs|
  {
    if xs == [] {
      assert |multiset(ys)| == 0;
    } else {
      var n := |xs| - 1;
      var a, b := PullOut(xs, ys);
      MapPermutes(f, xs[..n], b + a);
      MapThen(f, b, a);
      MapThen(f, a, [xs[n]] + b);
      MapThen(f, [xs[n]], b);
      MapThen(f, xs[..n], [xs[n]]);
    }
  }

  // So does filtering.
  lemma {:induction false} WherePermutes<T>(keep: T -> bool, xs: seq<T>, ys: seq<T>)
    requires multiset(xs) == multiset(ys)
    ensures multiset(Where(keep, xs)) == multiset(Where(keep, ys))
    decreases |xs|
  {
    if xs == [] {
      assert |multiset(ys)| == 0;
    } else {
      var n := |xs| - 1;
      var a, b := PullOut(xs, ys);
      WherePermutes(keep, xs[..n], b + a);
      WhereThen(keep, b, a);
      WhereThen(keep, a, [xs[n]] + b);
      WhereThen(keep, [xs[n]], b);
      WhereThen(keep, xs[..n], [xs[n]]);
    }
  }

  // A list is its kept part and its dropped part.
  lemma {:induction false} WhereSplits<T>(keep: T -> bool, drop: T -> bool, xs: seq<T>)
    requires forall x :: x in xs ==> keep(x) == !drop(x)
    ensures multiset(xs) == multiset(Where(keep, xs)) + multiset(Where(drop, xs))
    decreases |xs|
  {
    if xs != [] {
      var init, last := xs[..|xs| - 1], xs[|xs| - 1];
      WhereSplits(keep, drop, init);
      assert xs == init + [last];
      assert last in xs;
      var kept, dropped := Where(keep, init), Where(drop, init);
      if keep(last) {
        assert Where(keep, xs) == kept + [last] && Where(drop, xs) == dropped;
      } else {
        assert Where(keep, xs) == kept && Where(drop, xs) == dropped + [last];
      }
    }
  }

  lemma TakeOut<T, U>(f: T -> U, xs: seq<T>, a: seq<U>, u: U, b: seq<U>) returns (x: T, rest: seq<T>)
    requires Map(f, xs) == a + ([u] + b)
    ensures f(x) == u && Map(f, rest) == b + a
    ensures multiset(rest) + multiset{x} == multiset(xs)
  {
    var at := |a|;
    assert |xs| == at + 1 + |b|;
    var before, after := xs[..at], xs[at + 1..];
    x, rest := xs[at], after + before;
    assert xs == before + [x] + after;
    assert f(x) == (a + ([u] + b))[at];
    forall i | 0 <= i < |rest|
      ensures f(rest[i]) == (b + a)[i]
    {
      var from := if i < |after| then at + 1 + i else i - |after|;
      assert rest[i] == xs[from] && (b + a)[i] == (a + ([u] + b))[from];
    }
  }

  // A reordering of mapped rows comes from a reordering of the rows.
  lemma {:induction false} Unmapped<T, U>(f: T -> U, xs: seq<T>, us: seq<U>) returns (ys: seq<T>)
    requires multiset(us) == multiset(Map(f, xs))
    ensures multiset(ys) == multiset(xs) && us == Map(f, ys)
    decreases |us|
  {
    if us == [] {
      assert |multiset(Map(f, xs))| == 0;
      ys := [];
    } else {
      var n := |us| - 1;
      var a, b := PullOut(us, Map(f, xs));
      var x, rest := TakeOut(f, xs, a, us[n], b);
      var init := Unmapped(f, rest, us[..n]);
      ys := init + [x];
      MapThen(f, init, [x]);
    }
  }

  lemma {:induction false} WhereMap<T, U>(f: T -> U, keep: U -> bool, kept: T -> bool, xs: seq<T>)
    requires forall x :: x in xs ==> kept(x) == keep(f(x))
    ensures Where(keep, Map(f, xs)) == Map(f, Where(kept, xs))
    decreases |xs|
  {
    if xs != [] {
      var n := |xs| - 1;
      WhereMap(f, keep, kept, xs[..n]);
      assert Map(f, xs)[..n] == Map(f, xs[..n]);
    }
  }

  // Tables in another order hold the same rows.
  lemma {:induction false} ConcatPermutes<T>(xs: seq<seq<T>>, ys: seq<seq<T>>)
    requires multiset(xs) == multiset(ys)
    ensures multiset(Concat(xs)) == multiset(Concat(ys))
    decreases |xs|
  {
    if xs == [] {
      assert |multiset(ys)| == 0;
    } else {
      var n := |xs| - 1;
      var a, b := PullOut(xs, ys);
      ConcatPermutes(xs[..n], b + a);
      ConcatThen(b, a);
      ConcatThen(a, [xs[n]] + b);
      ConcatThen([xs[n]], b);
      ConcatOne(xs[n]);
    }
  }

  lemma {:induction false} ConcatThen<T>(xs: seq<seq<T>>, ys: seq<seq<T>>)
    ensures Concat(xs + ys) == Concat(xs) + Concat(ys)
    decreases |ys|
  {
    if ys == [] {
      assert xs + ys == xs;
    } else {
      var n := |ys| - 1;
      assert (xs + ys)[..|xs + ys| - 1] == xs + ys[..n];
      ConcatThen(xs, ys[..n]);
    }
  }

  lemma ConcatUpto<T>(parts: seq<seq<T>>, m: nat)
    requires 0 < m <= |parts|
    ensures Concat(parts[..m]) == Concat(parts[..m - 1]) + parts[m - 1]
  {
    assert parts[..m][..m - 1] == parts[..m - 1];
  }

  lemma ConcatOne<T>(x: seq<T>)
    ensures Concat([x]) == x
  {
    assert Concat<T>([x][..0]) == [];
  }
}
