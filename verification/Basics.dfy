/**
  What several modules share: optional values, lists without repetition, powers of two, the bits
  of a word and the width of a row count.
 */
module Basics {

  datatype Option<+T> = None | Some(value: T)

  ghost predicate NoDup<T(!new)>(xs: seq<T>) {
    forall i, j :: 0 <= i < j < |xs| ==> xs[i] != xs[j]
  }

  // A 64-bit count narrowed to the device's signed 32-bit row count.
  function AsSize(n: int): (r: int)
    ensures -0x8000_0000 <= r < 0x8000_0000
    ensures -0x8000_0000 <= n < 0x8000_0000 ==> r == n
    ensures n >= 0 ==> r <= n
    ensures exists wraps :: n == r + wraps * 0x1_0000_0000
  {
    assert n == (n + 0x8000_0000) % 0x1_0000_0000 - 0x8000_0000 + (n + 0x8000_0000) / 0x1_0000_0000 * 0x1_0000_0000;
    (n + 0x8000_0000) % 0x1_0000_0000 - 0x8000_0000
  }

  function Pow2(k: nat): (p: nat)
    ensures p > 0
  {
    if k == 0 then 1 else 2 * Pow2(k - 1)
  }

  lemma {:induction false} Pow2Grows(a: nat, b: nat)
    requires a <= b
    ensures Pow2(a) <= Pow2(b)
  {
    if a < b {
      Pow2Grows(a, b - 1);
    }
  }

  // Bit `r` of a word.
  predicate HasBit(m: nat, r: nat) {
    m / Pow2(r) % 2 == 1
  }

  // How far 2^r goes into a word, told by any way of taking it out.
  lemma QuotientIs(n: nat, p: nat, q: int, r: int)
    requires p > 0 && n == q * p + r && 0 <= r < p
    ensures n / p == q
  {
    var q', r' := n / p, n % p;
    assert n == q' * p + r';
    assert (q - q') * p == q * p - q' * p;
    if q > q' {
      AtLeastOnce(q - q', p);
    } else if q < q' {
      assert (q' - q) * p == q' * p - q * p;
      AtLeastOnce(q' - q, p);
    }
  }

  lemma AtLeastOnce(a: nat, p: nat)
    requires a >= 1
    ensures a * p >= p
  {
    assert a * p == (a - 1) * p + p;
  }

  // What stands above bit `r`, as 2^r goes into it an even number of times.
  lemma {:induction false} HigherPower(k: nat, r: nat) returns (half: nat)
    requires r < k
    ensures Pow2(k) == 2 * half * Pow2(r)
    decreases k
  {
    if r == k - 1 {
      half := 1;
    } else {
      var quarter := HigherPower(k - 1, r);
      half := 2 * quarter;
      Regrouped(quarter, Pow2(r));
    }
  }

  lemma Regrouped(a: nat, b: nat)
    ensures 2 * (2 * a * b) == 2 * (2 * a) * b
  {
  }

  // A bit does not see the bits above it.
  lemma HigherBitApart(m: nat, k: nat, r: nat)
    requires r < k
    ensures HasBit(m + Pow2(k), r) <==> HasBit(m, r)
  {
    hide Pow2;
    var p := Pow2(r);
    var half := HigherPower(k, r);
    var q := m / p;
    assert m == q * p + m % p;
    Distributed(q, 2 * half, p);
    QuotientIs(m + Pow2(k), p, q + 2 * half, m % p);
    SameParity(q, half);
  }

  lemma SameParity(q: nat, half: nat)
    ensures (q + 2 * half) % 2 == q % 2
  {
  }

  lemma Distributed(a: nat, b: nat, p: nat)
    ensures (a + b) * p == a * p + b * p
  {
  }

  lemma TopBit(m: nat, k: nat)
    requires m < 2 * Pow2(k)
    ensures HasBit(m, k) <==> m >= Pow2(k)
  {
    hide Pow2;
    var p := Pow2(k);
    if m >= p {
      QuotientIs(m, p, 1, m - p);
    } else {
      QuotientIs(m, p, 0, m);
    }
  }

  lemma NoBitAbove(m: nat, k: nat, r: nat)
    requires m < Pow2(k) && k <= r
    ensures !HasBit(m, r)
  {
    Pow2Grows(k, r);
    hide Pow2;
    QuotientIs(m, Pow2(r), 0, m);
  }

  // The lowest bit, and the bits above it.
  lemma ShiftedBit(m: nat, b: nat, r: nat)
    requires b < 2
    ensures HasBit(2 * m + b, 0) <==> b == 1
    ensures HasBit(2 * m + b, r + 1) <==> HasBit(m, r)
  {
    hide Pow2;
    assert Pow2(0) == 1 && Pow2(r + 1) == 2 * Pow2(r) by { PowersOf(r); }
    var p, q := Pow2(r), m / Pow2(r);
    assert m == q * p + m % p;
    assert q * (2 * p) == 2 * (q * p);
    QuotientIs(2 * m + b, 2 * p, q, 2 * (m % p) + b);
    QuotientIs(2 * m + b, 1, 2 * m + b, 0);
  }

  lemma PowersOf(r: nat)
    ensures Pow2(0) == 1 && Pow2(r + 1) == 2 * Pow2(r)
  {
  }
}
