/**
  Sets of relations and the 64-bit masks the solver keeps them in.

  The enumeration is written over `RelSet`, a finite set of relation numbers. This module says
  what the mask arithmetic of the source does to such sets: a mask is the sum of the powers of
  two of its bits, `&` is intersection of bits, subtraction wraps at 2^64. The main result is
  that the wrapping submask step is the least strictly larger submask, so the iterator lists
  every non-empty subset once, in increasing mask order, each set after all its subsets.
 */
module RelSets {
  import opened Basics

  type RelSet = set<nat>

  const WORD: nat := 64

  // Relations 0..n.
  function AllBelow(n: nat): (s: RelSet)
    ensures forall x :: x in s <==> 0 <= x < n
  {
    if n == 0 then {} else AllBelow(n - 1) + {n - 1}
  }

  // Relations 0..=r.
  function BelowOrAt(r: nat): RelSet {
    AllBelow(r + 1)
  }

  // ------------------------------------------------------------ the lowest relation

  ghost predicate IsMin(m: nat, s: RelSet) {
    m in s && forall x :: x in s ==> m <= x
  }

  lemma {:induction false} LowestOf(s: RelSet) returns (m: nat)
    requires s != {}
    ensures IsMin(m, s)
  {
    m :| m in s;
    var rest := s - {m};
    assert s == rest + {m};
    if rest != {} {
      var k := LowestOf(rest);
      m := if m < k then m else k;
    }
  }

  // `trailing_zeros` of a mask, and the relation `isolate_lowest_one` keeps.
  function Min(s: RelSet): (m: nat)
    requires s != {}
    ensures m in s
    ensures forall x :: x in s ==> m <= x
  {
    assert exists m :: IsMin(m, s) by { var low := LowestOf(s); }
    var m :| m in s && forall x :: x in s ==> m <= x;
    m
  }

  // ------------------------------------------------------------ masks

  // The value of the bits of `s` below position `k`.
  function MaskBelow(s: RelSet, k: nat): (m: nat)
    ensures m < Pow2(k)
  {
    if k == 0 then 0 else MaskBelow(s, k - 1) + if k - 1 in s then Pow2(k - 1) else 0
  }

  // The bits of `m` below position `k`.
  function BitsBelow(m: nat, k: nat): (s: RelSet)
    requires m < Pow2(k)
    ensures forall x :: x in s ==> x < k
  {
    if k == 0 then {}
    else if m >= Pow2(k - 1) then {k - 1} + BitsBelow(m - Pow2(k - 1), k - 1)
    else BitsBelow(m, k - 1)
  }

  ghost predicate IsWord(m: int) {
    0 <= m < Pow2(WORD)
  }

  function Mask(s: RelSet): (m: nat)
    ensures IsWord(m)
  {
    MaskBelow(s, WORD)
  }

  function Bits(m: nat): (s: RelSet)
    requires IsWord(m)
    ensures s <= AllBelow(WORD)
  {
    BitsBelow(m, WORD)
  }

  lemma {:induction false} MaskIgnoresAbove(s: RelSet, t: RelSet, k: nat)
    requires forall x :: 0 <= x < k ==> (x in s <==> x in t)
    ensures MaskBelow(s, k) == MaskBelow(t, k)
  {
    if k > 0 {
      MaskIgnoresAbove(s, t, k - 1);
    }
  }

  lemma {:induction false} BitsOfMask(s: RelSet, k: nat)
    ensures BitsBelow(MaskBelow(s, k), k) == set x | x in s && x < k
  {
    if k > 0 {
      BitsOfMask(s, k - 1);
      assert (set x | x in s && x < k) == (set x | x in s && x < k - 1) + if k - 1 in s then {k - 1} else {};
    }
  }

  lemma {:induction false} MaskOfBits(m: nat, k: nat)
    requires m < Pow2(k)
    ensures MaskBelow(BitsBelow(m, k), k) == m
  {
    if k > 0 {
      var rest := if m >= Pow2(k - 1) then m - Pow2(k - 1) else m;
      MaskOfBits(rest, k - 1);
      MaskIgnoresAbove(BitsBelow(m, k), BitsBelow(rest, k - 1), k - 1);
    }
  }

  // What a mask stands for, relation by relation.
  lemma {:induction false} BitsAreBits(m: nat, k: nat, r: nat)
    requires m < Pow2(k)
    ensures r in BitsBelow(m, k) <==> HasBit(m, r)
    decreases k
  {
    hide HasBit;
    if k <= r {
      NoBitAbove(m, k, r);
    } else {
      var top := Pow2(k - 1);
      TopBit(m, k - 1);
      if r < k - 1 && m >= top {
        BitsAreBits(m - top, k - 1, r);
        HigherBitApart(m - top, k - 1, r);
      } else if r < k - 1 {
        BitsAreBits(m, k - 1, r);
      }
    }
  }

  // `s` is what the bits of a word name.
  ghost predicate StandsFor(w: nat, s: RelSet) {
    forall r: nat :: r in s <==> HasBit(w, r)
  }

  lemma WordStands(w: nat)
    requires IsWord(w)
    ensures StandsFor(w, Bits(w))
    ensures Mask(Bits(w)) == w
  {
    forall r: nat
      ensures r in Bits(w) <==> HasBit(w, r)
    {
      BitsAreBits(w, WORD, r);
    }
    MaskOfBits(w, WORD);
  }

  // Masks and sets of relations below 64 are the same thing.
  lemma MaskRoundTrip(s: RelSet, m: nat)
    requires s <= AllBelow(WORD)
    requires IsWord(m)
    ensures Bits(Mask(s)) == s
    ensures Mask(Bits(m)) == m
  {
    BitsOfMask(s, WORD);
    assert s == set x | x in s && x < WORD;
    MaskOfBits(m, WORD);
  }

  lemma {:induction false} MaskSum(s: RelSet, t: RelSet, k: nat)
    requires s !! t
    ensures MaskBelow(s + t, k) == MaskBelow(s, k) + MaskBelow(t, k)
  {
    if k > 0 {
      MaskSum(s, t, k - 1);
    }
  }

  lemma {:induction false} MaskNonZero(s: RelSet, x: nat, k: nat)
    requires x in s && x < k
    ensures MaskBelow(s, k) > 0
  {
    if x < k - 1 {
      MaskNonZero(s, x, k - 1);
    }
  }

  // The order of masks is decided at the highest bit where they differ.
  lemma {:induction false} MaskOrder(s: RelSet, t: RelSet, top: nat, k: nat)
    requires top < k && top in t && top !in s
    requires forall x :: top < x < k ==> (x in s <==> x in t)
    ensures MaskBelow(s, k) < MaskBelow(t, k)
  {
    if top < k - 1 {
      MaskOrder(s, t, top, k - 1);
    }
  }

  // A subset's mask is no larger: a subset is listed no later than the sets that contain it.
  lemma {:induction false} MaskMonotone(s: RelSet, t: RelSet, k: nat)
    requires s <= t
    ensures MaskBelow(s, k) <= MaskBelow(t, k)
  {
    if k > 0 {
      MaskMonotone(s, t, k - 1);
    }
  }

  // Two different sets below `k` differ at a highest bit.
  lemma {:induction false} HighestDifference(s: RelSet, t: RelSet, k: nat) returns (top: nat)
    requires s != t
    requires forall x :: x in s || x in t ==> x < k
    ensures top < k
    ensures top in s <==> top !in t
    ensures top in s || top in t
    ensures forall x :: x > top ==> (x in s <==> x in t)
  {
    var x :| x in s <==> x !in t;
    if (k - 1 in s) != (k - 1 in t) {
      top := k - 1;
    } else {
      var s', t' := s - {k - 1}, t - {k - 1};
      assert x != k - 1 && (x in s' <==> x !in t');
      top := HighestDifference(s', t', k - 1);
      forall y | y > top
        ensures y in s <==> y in t
      {
        if y != k - 1 {
          assert y in s' <==> y in t';
        }
      }
    }
  }

  // ------------------------------------------------------------ below_or_at

  // (1 << (r + 1)) - 1, and the all-ones word at 63 and above.
  function BelowOrAtMask(r: nat): nat {
    if r >= 63 then Pow2(WORD) - 1 else Pow2(r + 1) - 1
  }

  lemma {:induction false} OnesBelow(k: nat, w: nat)
    requires k <= w
    ensures MaskBelow(AllBelow(k), w) == Pow2(k) - 1
  {
    if w > k {
      OnesBelow(k, w - 1);
    } else if k > 0 {
      OnesBelow(k - 1, k - 1);
      MaskIgnoresAbove(AllBelow(k), AllBelow(k - 1), k - 1);
    }
  }

  // The mask `below_or_at` builds holds exactly the relations 0..=r a word can hold.
  lemma BelowOrAtIsMask(r: nat)
    ensures IsWord(BelowOrAtMask(r))
    ensures Bits(BelowOrAtMask(r)) == BelowOrAt(r) * AllBelow(WORD)
  {
    hide Pow2, MaskBelow, AllBelow, Bits;
    var k := if r >= 63 then WORD else r + 1;
    OnesBelow(k, WORD);
    assert BelowOrAtMask(r) == Mask(AllBelow(k));
    MaskRoundTrip(AllBelow(k), 0);
    assert BelowOrAt(r) * AllBelow(WORD) == AllBelow(k);
  }

  // ------------------------------------------------------------ the submask iterator

  // `a & b`
  function AndMask(a: nat, b: nat): (m: nat)
    requires IsWord(a) && IsWord(b)
    ensures IsWord(m)
  {
    Mask(Bits(a) * Bits(b))
  }

  // `a.wrapping_sub(b)`
  function WrappingSub(a: nat, b: nat): (m: nat)
    requires IsWord(a) && IsWord(b)
    ensures IsWord(m)
  {
    if a >= b then a - b else a + Pow2(WORD) - b
  }

  // `current.wrapping_sub(set) & set`
  function NextMask(current: nat, set_: nat): (m: nat)
    requires IsWord(current) && IsWord(set_)
    ensures IsWord(m)
  {
    AndMask(WrappingSub(current, set_), set_)
  }

  // The same step on sets: the lowest relation not yet in joins, everything below it leaves.
  function NextSubmask(current: RelSet, of: RelSet): (next: RelSet)
    requires current <= of
    ensures next <= of
  {
    if current == of then {}
    else
      assert of == current + (of - current);
      var low := Min(of - current);
      {low} + set x | x in current && x > low
  }

  // -d and d + complement-above-low add up to a power of two, position by position.
  lemma {:induction false} TwosComplement(d: RelSet, e: RelSet, low: nat, k: nat)
    requires low in d && low in e
    requires forall x :: x < low ==> x !in d && x !in e
    requires forall x :: low < x < k ==> (x in e <==> x !in d)
    ensures MaskBelow(d, k) + MaskBelow(e, k) == if k <= low then 0 else Pow2(k)
  {
    if k > 0 {
      TwosComplement(d, e, low, k - 1);
    }
  }

  lemma EmptyMask()
    ensures Mask({}) == 0 && Bits(0) == {}
  {
    OnesBelow(0, WORD);
    BitsOfMask({}, WORD);
  }

  lemma WrappingDifference(current: RelSet, d: RelSet, low: nat) returns (e: RelSet)
    requires current + d <= AllBelow(WORD) && current !! d
    requires low in d && forall x :: x in d ==> low <= x
    ensures WrappingSub(Mask(current), Mask(current + d)) == Mask(e)
    ensures e == {low} + set x | x in AllBelow(WORD) && low < x && x !in d
  {
    e := {low} + set x | x in AllBelow(WORD) && low < x && x !in d;
    MaskSum(current, d, WORD);
    MaskNonZero(d, low, WORD);
    TwosComplement(d, e, low, WORD);
  }

  // The wrapping subtraction and mask of the source computes the set step, with no exception
  // for any of the 2^64 words.
  lemma WrappingStep(current: RelSet, of: RelSet)
    requires current <= of <= AllBelow(WORD)
    ensures NextMask(Mask(current), Mask(of)) == Mask(NextSubmask(current, of))
  {
    MaskRoundTrip(of, 0);
    if current == of {
      EmptyMask();
      assert Bits(0) * Bits(Mask(of)) == {};
    } else {
      var d := of - current;
      assert current + d == of;
      var low := Min(d);
      var e := WrappingDifference(current, d, low);
      MaskRoundTrip(e, 0);
      assert e * of == NextSubmask(current, of);
    }
  }

  // The step is the successor among submasks: strictly larger, and no submask lies between.
  lemma StepIsSuccessor(current: RelSet, of: RelSet, other: RelSet)
    requires current < of <= AllBelow(WORD)
    requires other <= of
    ensures Mask(current) < Mask(NextSubmask(current, of))
    ensures Mask(current) < Mask(other) ==> Mask(NextSubmask(current, of)) <= Mask(other)
  {
    var next := NextSubmask(current, of);
    var low := Min(of - current);
    MaskOrder(current, next, low, WORD);
    if Mask(current) < Mask(other) {
      var top := HighestDifference(current, other, WORD);
      if top in current {
        MaskOrder(other, current, top, WORD);
        assert false;
      } else if top == low {
        MaskMonotone(next, other, WORD);
      } else {
        assert top in of - current && top > low;
        MaskOrder(next, other, top, WORD);
      }
    }
  }

  lemma MaskInjective(s: RelSet, t: RelSet)
    requires s <= AllBelow(WORD) && t <= AllBelow(WORD)
    requires Mask(s) == Mask(t)
    ensures s == t
  {
    MaskRoundTrip(s, 0);
    MaskRoundTrip(t, 0);
  }

  // The step's mask is the next one up among the subsets.
  lemma NothingBetween(was: RelSet, of: RelSet)
    requires was < of <= AllBelow(WORD)
    ensures Mask(was) < Mask(NextSubmask(was, of))
    ensures forall s :: s <= of && s != {} ==>
              (Mask(s) <= Mask(NextSubmask(was, of)) <==> Mask(s) <= Mask(was) || s == NextSubmask(was, of))
  {
    hide Mask, NextSubmask;
    var next := NextSubmask(was, of);
    StepIsSuccessor(was, of, was);
    forall s | s <= of && s != {}
      ensures Mask(s) <= Mask(next) <==> Mask(s) <= Mask(was) || s == next
    {
      StepIsSuccessor(was, of, s);
      if Mask(s) == Mask(next) {
        MaskInjective(s, next);
      }
    }
  }

  /** Lists the subsets of `of` but the empty one. Masks strictly increase along the list, hence so
      does inclusion wherever it holds. */
  method Submasks(of: RelSet) returns (subs: seq<RelSet>)
    requires of <= AllBelow(WORD)
    ensures forall s :: s in subs <==> s <= of && s != {}
    ensures forall i, j :: 0 <= i < j < |subs| ==> Mask(subs[i]) < Mask(subs[j])
    ensures forall i, j :: 0 <= i < |subs| && 0 <= j < |subs| && subs[i] <= subs[j] ==> i <= j
  {
    hide NextSubmask, AllBelow, Pow2;
    subs := [];
    var current: RelSet := {};
    forall s: RelSet | s <= of && Mask(s) <= Mask({})
      ensures s == {}
    {
      EmptyMask();
      MaskInjective(s, {});
    }
    while current != of
      invariant current <= of
      invariant forall s :: s in subs <==> s <= of && s != {} && Mask(s) <= Mask(current)
      invariant forall i, j :: 0 <= i < j < |subs| ==> Mask(subs[i]) < Mask(subs[j])
      decreases Pow2(WORD) - Mask(current)
    {
      ghost var was := current;
      current := NextSubmask(current, of);
      NothingBetween(was, of);
      subs := subs + [current];
    }
    forall s | s <= of
      ensures Mask(s) <= Mask(of)
    {
      MaskMonotone(s, of, WORD);
    }
    forall i, j | 0 <= i < |subs| && 0 <= j < |subs| && subs[i] <= subs[j]
      ensures i <= j
    {
      MaskMonotone(subs[i], subs[j], WORD);
    }
  }
}
