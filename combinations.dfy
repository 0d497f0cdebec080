/**
 * Binomial sums computed with 64-bit accumulators
 * (src/algorithms/combinations.cpp).
 *
 * The engine computes n choose i incrementally: a running numerator
 * n(n-1)...(n-i+1), a running denominator i!, and the quotient of the two.
 * Every `uint64_t` operation wraps modulo 2^64 and the `int` conversion in
 * `calculateCombinationsBetween` wraps modulo 2^32; both are written out
 * here. A denominator that wraps to zero would be a division by zero, which
 * the model reports as `DivisionByZero` instead of crashing.
 */
module Combinations {

  const U32: nat := 0x1_0000_0000
  const U64: nat := 0x1_0000_0000_0000_0000

  /** Outcome of a 64-bit computation that divides. */
  datatype Outcome = Value(v: nat) | DivisionByZero

  /** The reference definition of n choose k: Pascal's rule. */
  function Binom(n: nat, k: nat): nat
  {
    if k == 0 then 1
    else if n == 0 then 0
    else Binom(n - 1, k - 1) + Binom(n - 1, k)
  }

  function Fact(k: nat): (r: nat)
    ensures r >= 1
  {
    if k == 0 then 1 else k * Fact(k - 1)
  }

  /** The falling factorial n(n-1)...(n-k+1); zero once a factor reaches 0. */
  function Falling(n: nat, k: nat): nat
  {
    if k == 0 then 1
    else if k - 1 >= n then 0
    else Falling(n, k - 1) * (n - (k - 1))
  }

  /** Sum of Binom(n, i) for lo <= i <= hi (zero when the range is empty). */
  function SumBinom(n: nat, lo: nat, hi: nat): nat
    decreases hi
  {
    if hi < lo then 0
    else if hi == lo then Binom(n, hi)
    else SumBinom(n, lo, hi - 1) + Binom(n, hi)
  }

  function Min(a: nat, b: nat): nat { if a <= b then a else b }
  function Max(a: nat, b: nat): nat { if a >= b then a else b }

  /** The C++ conversion `int(x)` of a 32-bit unsigned value. */
  function ToInt32(x: nat): (r: int)
    requires x < U32
    ensures -0x8000_0000 <= r < 0x8000_0000
    ensures r % U32 == x % U32
  {
    if x < 0x8000_0000 then x else x - U32
  }

  // ---------------------------------------------------------------------
  // Facts about the reference definitions
  // ---------------------------------------------------------------------

  lemma {:induction false} BinomAboveN(n: nat, k: nat)
    requires k > n
    ensures Binom(n, k) == 0
  {
    if n > 0 {
      BinomAboveN(n - 1, k - 1);
      BinomAboveN(n - 1, k);
    }
  }

  lemma {:induction false} BinomAtN(n: nat)
    ensures Binom(n, n) == 1
  {
    if n > 0 {
      BinomAtN(n - 1);
      BinomAboveN(n - 1, n);
    }
  }

  /** Falling(n + 1, k + 1) == (n + 1) * Falling(n, k). */
  lemma {:induction false} FallingShift(n: nat, k: nat)
    ensures Falling(n + 1, k + 1) == (n + 1) * Falling(n, k)
  {
    if k == 0 {
    } else if k - 1 >= n {
      // Falling(n, k) == 0 and the factor (n + 1 - k) of Falling(n + 1, k + 1) is 0 too.
      if k - 1 > n {
        FallingShift(n, k - 1);
      }
    } else {
      FallingShift(n, k - 1);
      calc {
        Falling(n + 1, k + 1);
        Falling(n + 1, k) * (n + 1 - k);
        (n + 1) * Falling(n, k - 1) * (n - (k - 1));
        { assert Falling(n, k) == Falling(n, k - 1) * (n - (k - 1)); }
        (n + 1) * Falling(n, k);
      }
    }
  }

  /** The ring identity behind one step of FallingIsFactTimesBinom. */
  lemma PascalStepArith(n: int, k: int, m: int, j: int, a: int, b: int, c: int, fj: int, fmk: int)
    requires n == m + 1 && k == j + 1
    requires fj == a * b && fmk == k * a * c && fmk == fj * (m - j)
    ensures n * fj == (k * a) * (b + c)
  {
    calc {
      n * fj;
      (k + (m - j)) * fj;
      k * fj + (m - j) * fj;
      k * (a * b) + fmk;
      k * (a * b) + k * a * c;
      (k * a) * (b + c);
    }
  }

  /** The numerator/denominator quotient is exact: Falling(n, k) == k! * Binom(n, k). */
  lemma {:induction false} FallingIsFactTimesBinom(n: nat, k: nat)
    ensures Falling(n, k) == Fact(k) * Binom(n, k)
    decreases n
  {
    if k == 0 {
    } else if k > n {
      BinomAboveN(n, k);
    } else {
      var m, j := n - 1, k - 1;
      FallingIsFactTimesBinom(m, j);
      FallingShift(m, j);
      assert Binom(n, k) == Binom(m, j) + Binom(m, k);
      assert Fact(k) == k * Fact(j);
      if j < m {
        FallingIsFactTimesBinom(m, k);
        assert Falling(m, k) == Falling(m, j) * (m - j);
        PascalStepArith(n, k, m, j, Fact(j), Binom(m, j), Binom(m, k), Falling(m, j), Falling(m, k));
      } else {
        BinomAboveN(m, k);
        assert Binom(n, k) == Binom(m, j);
        assert Falling(n, k) == n * Falling(m, j);
        assert Fact(k) * Binom(n, k) == k * (Fact(j) * Binom(m, j));
      }
    }
  }

  /** Binom(n, k) == Binom(n, n - k): choosing k is choosing the n - k to leave out. */
  lemma {:induction false} BinomSymmetric(n: nat, k: nat)
    requires k <= n
    ensures Binom(n, k) == Binom(n, n - k)
  {
    if k == 0 {
      BinomAtN(n);
    } else if k == n {
      BinomAtN(n);
    } else {
      BinomSymmetric(n - 1, k - 1);
      BinomSymmetric(n - 1, k);
      assert Binom(n, n - k) == Binom(n - 1, n - k - 1) + Binom(n - 1, n - k);
    }
  }

  lemma {:induction false} FallingMonotone(n: nat, i: nat, k: nat)
    requires i <= k <= n
    ensures Falling(n, i) <= Falling(n, k)
    decreases k - i
  {
    if i < k {
      FallingMonotone(n, i, k - 1);
      assert Falling(n, k) == Falling(n, k - 1) * (n - (k - 1));
      MulAtLeast(Falling(n, k - 1), n - (k - 1));
    }
  }

  lemma {:induction false} FactBelowFalling(n: nat, k: nat)
    requires k <= n
    ensures Fact(k) <= Falling(n, k)
  {
    FallingIsFactTimesBinom(n, k);
    BinomPositive(n, k);
  }

  lemma {:induction false} BinomPositive(n: nat, k: nat)
    requires k <= n
    ensures Binom(n, k) >= 1
  {
    if k == 0 {
    } else {
      BinomPositive(n - 1, k - 1);
    }
  }

  lemma {:induction false} SumBinomMonotone(n: nat, lo: nat, i: nat, hi: nat)
    requires i <= hi
    ensures SumBinom(n, lo, i) <= SumBinom(n, lo, hi)
    decreases hi - i
  {
    if i < hi {
      SumBinomMonotone(n, lo, i, hi - 1);
    }
  }

  /** Summing from 1 to hi equals summing from 0 to hi minus the empty set. */
  lemma {:induction false} SumBinomStep(n: nat, lo: nat, hi: nat)
    requires lo <= hi + 1
    ensures SumBinom(n, lo, hi + 1) == SumBinom(n, lo, hi) + Binom(n, hi + 1)
  {
  }

  // ---------------------------------------------------------------------
  // The three engine functions
  // ---------------------------------------------------------------------

  /** The values a run of UpToK/Between over i = 1..k touches all fit in 64 bits. */
  predicate Fits(n: nat, k: nat)
  {
    Falling(n, k) < U64 && SumBinom(n, 1, k) < U64
  }

  /**
   * One iteration of the engine's loop while nothing has wrapped: the 64-bit
   * denominator becomes i!, the quotient is exactly n choose i, and the next
   * numerator is the next falling factorial.
   */
  lemma QuotientStep(n: nat, i: nat, kk: nat, numerator: nat, denominator: nat)
    requires 1 <= i <= kk <= n && Falling(n, kk) < U64
    requires denominator == Fact(i - 1) && numerator == Falling(n, i)
    ensures (denominator * i) % U64 == Fact(i) > 0
    ensures numerator / Fact(i) == Binom(n, i)
    ensures i + 1 <= kk ==> (numerator * (n - i)) % U64 == Falling(n, i + 1)
  {
    FactBelowFalling(n, i);
    FallingMonotone(n, i, kk);
    SmallMod(denominator * i);
    FallingIsFactTimesBinom(n, i);
    ExactDiv(numerator, Fact(i), Binom(n, i));
    if i + 1 <= kk {
      FallingMonotone(n, i + 1, kk);
      SmallMod(numerator * (n - i));
    }
  }

  lemma SmallMod(x: nat)
    requires x < U64
    ensures x % U64 == x
  {
  }

  lemma ExactDiv(a: nat, b: nat, c: nat)
    requires b > 0 && a == b * c
    ensures a / b == c
  {
    var q, r := a / b, a % b;
    assert a == b * q + r && 0 <= r < b;
    if q > c {
      MulSplit(b, q - c, c);
      MulAtLeast(b, q - c);
    } else if q < c {
      MulSplit(b, c - q, q);
      MulAtLeast(b, c - q);
    }
  }

  lemma DivAtMost(a: nat, b: nat)
    requires b > 0
    ensures a / b <= a
  {
    var q, r := a / b, a % b;
    assert a == b * q + r && 0 <= r;
    if q >= 1 {
      MulAtLeast(q, b);
    }
  }

  lemma MulSplit(b: int, d: int, e: int)
    ensures b * (d + e) == b * d + b * e
  {
  }

  lemma MulAtLeast(b: nat, d: nat)
    requires d >= 1
    ensures b * d >= b
  {
    MulSplit(b, d - 1, 1);
  }

  /** Adding the next binomial to the 64-bit accumulator while the total fits. */
  lemma SumStep(n: nat, lo: nat, i: nat, kk: nat, result: nat)
    requires 1 <= lo <= i <= kk && SumBinom(n, 1, kk) < U64
    requires result == SumBinom(n, lo, i - 1)
    ensures (result + Binom(n, i)) % U64 == SumBinom(n, lo, i)
  {
    SumBinomRange(n, lo, i, kk);
    SumBinomStep(n, lo, i - 1);
  }

  /**
   * calculateCombinationsUpToK: the number of non-empty subsets of at most
   * k elements of an n-element set.
   */
  method UpToK(k: nat, n: nat) returns (r: Outcome)
    requires k < U32 && n < U32
    ensures r.Value? ==> r.v < U64
    ensures k == 0 || n == 0 ==> r == Value(0)
    ensures Fits(n, Min(k, n)) ==> r == Value(SumBinom(n, 1, Min(k, n)))
  {
    var kk := if k > n then n else k;
    if kk == 0 {
      return Value(0);
    }
    ghost var fits := Fits(n, kk);
    var result: nat, numerator: nat, denominator: nat := 0, n, 1;
    var i := 1;
    while i <= kk
      invariant 1 <= i <= kk + 1
      invariant result < U64 && numerator < U64 && denominator < U64
      invariant fits ==> denominator == Fact(i - 1) && result == SumBinom(n, 1, i - 1)
      invariant fits && i <= kk ==> numerator == Falling(n, i)
    {
      if fits {
        QuotientStep(n, i, kk, numerator, denominator);
        SumStep(n, 1, i, kk, result);
      }
      denominator := (denominator * i) % U64;
      if denominator == 0 {
        return DivisionByZero;
      }
      result := (result + numerator / denominator) % U64;
      numerator := (numerator * (n - i)) % U64;
      i := i + 1;
    }
    return Value(result);
  }

  /**
   * calculateCombinationsBetween: the number of subsets whose size lies in
   * [max(kMin, 1), min(kMax, n)], or 0 when the signed difference of the
   * clamped bounds is not positive.
   */
  method Between(kMin: nat, kMax: nat, n: nat) returns (r: Outcome)
    requires kMin < U32 && kMax < U32 && n < U32
    ensures r.Value? ==> r.v < U64
    ensures ToInt32(Min(kMax, n)) - ToInt32(kMin) <= 0 ==> r == Value(0)
    ensures ToInt32(Min(kMax, n)) - ToInt32(kMin) > 0 && Fits(n, Min(kMax, n)) ==>
      r == Value(SumBinom(n, Max(kMin, 1), Min(kMax, n)))
  {
    var kk := if kMax > n then n else kMax;
    var diff := ToInt32(kk) - ToInt32(kMin);
    if diff <= 0 {
      return Value(0);
    }
    ghost var fits := Fits(n, kk);
    ghost var lo := Max(kMin, 1);
    var result: nat, numerator: nat, denominator: nat := 0, n, 1;
    var i := 1;
    while i <= kk
      invariant 1 <= i <= kk + 1
      invariant result < U64 && numerator < U64 && denominator < U64
      invariant fits ==> denominator == Fact(i - 1) && result == SumBinom(n, lo, i - 1)
      invariant fits && i <= kk ==> numerator == Falling(n, i)
    {
      if fits {
        QuotientStep(n, i, kk, numerator, denominator);
        if i >= kMin {
          SumStep(n, lo, i, kk, result);
        }
      }
      denominator := (denominator * i) % U64;
      if i >= kMin {
        if denominator == 0 {
          return DivisionByZero;
        }
        result := (result + numerator / denominator) % U64;
      }
      numerator := (numerator * (n - i)) % U64;
      i := i + 1;
    }
    return Value(result);
  }

  /** A sum over a sub-range never exceeds the sum from 1 over the whole range. */
  lemma {:induction false} SumBinomRange(n: nat, lo: nat, i: nat, hi: nat)
    requires 1 <= lo && i <= hi
    ensures SumBinom(n, lo, i) <= SumBinom(n, 1, hi)
    decreases hi
  {
    SumBinomSuffix(n, lo, i);
    SumBinomMonotone(n, 1, i, hi);
  }

  lemma {:induction false} SumBinomSuffix(n: nat, lo: nat, hi: nat)
    requires 1 <= lo
    ensures SumBinom(n, lo, hi) <= SumBinom(n, 1, hi)
    decreases hi
  {
    if hi < lo {
    } else if hi == lo {
      if lo > 1 {
        assert SumBinom(n, 1, hi) == SumBinom(n, 1, hi - 1) + Binom(n, hi);
      }
    } else {
      SumBinomSuffix(n, lo, hi - 1);
    }
  }

  /** The k that calculateCombinationsAtK actually iterates to, after `k * 2` wraps in 32 bits. */
  function ReducedK(k: nat, n: nat): nat
    requires k <= n
  {
    if (k * 2) % U32 > n then n - k else k
  }

  /** calculateCombinationsAtK: n choose k. */
  method AtK(k: nat, n: nat) returns (r: Outcome)
    requires k < U32 && n < U32
    ensures r.Value? ==> r.v < U64
    ensures k > n ==> r == Value(0)
    ensures k == 0 ==> r == Value(1)
    ensures k == n && n < 0x8000_0000 ==> r == Value(1)
    ensures k <= n && Falling(n, ReducedK(k, n)) < U64 ==> r == Value(Binom(n, k))
  {
    if k > n {
      BinomAboveN(n, k);
      return Value(0);
    }
    if n < 0x8000_0000 {
      assert (k * 2) % U32 == k * 2;
    }
    var kk := k;
    if (kk * 2) % U32 > n {
      kk := n - kk;
    }
    assert kk == ReducedK(k, n);
    if kk == 0 {
      BinomSymmetric(n, k);
      return Value(1);
    }
    ghost var fits := Falling(n, kk) < U64;
    var numerator: nat, denominator: nat := n, 1;
    var i := 1;
    while i < kk
      invariant 1 <= i <= kk
      invariant numerator < U64 && denominator < U64
      invariant fits ==> denominator == Fact(i - 1) && numerator == Falling(n, i)
    {
      if fits {
        QuotientStep(n, i, kk, numerator, denominator);
      }
      denominator := (denominator * i) % U64;
      numerator := (numerator * (n - i)) % U64;
      i := i + 1;
    }
    if fits {
      QuotientStep(n, kk, kk, numerator, denominator);
      BinomSymmetric(n, k);
    }
    denominator := (denominator * kk) % U64;
    if denominator == 0 {
      return DivisionByZero;
    }
    DivAtMost(numerator, denominator);
    return Value(numerator / denominator);
  }
}
