/**
  The hypergeometric distribution as the calculator uses it: the chance of
  exactly k successes in a hand of n cards drawn without replacement from a
  deck of N cards of which K are successes, and its running sums over a
  range of success counts.

  Probabilities are exact `real`s; the component's double-precision rounding
  is not modelled.
 */
module Distribution {
  import opened Combinatorics

  /**
    The component's `hypergeometric(N, K, n, k)`:
    C(K, k) * C(N - K, n - k) / C(N, n). The denominator is positive exactly
    when 0 <= n <= N, which every clamped deck and hand size meets.
   */
  function Hypergeometric(N: int, K: int, n: int, k: int): (p: real)
    requires 0 <= n <= N
    ensures p >= 0.0
    ensures p > 0.0 <==> 0 <= k <= K && 0 <= n - k <= N - K
  {
    var ways := Combination(K, k) * Combination(N - K, n - k);
    assert ways > 0 <==> 0 <= k <= K && 0 <= n - k <= N - K by {
      if 0 <= k <= K && 0 <= n - k <= N - K {
        PositiveProduct(Combination(K, k), Combination(N - K, n - k));
      }
    }
    PositiveQuotient(ways, Combination(N, n));
    ways as real / Combination(N, n) as real
  }

  lemma PositiveProduct(x: int, y: int)
    requires x >= 1 && y >= 1
    ensures x * y >= 1
  {
  }

  lemma PositiveQuotient(x: nat, d: int)
    requires d >= 1
    ensures x as real / d as real >= 0.0
    ensures x as real / d as real > 0.0 <==> x > 0
  {
  }

  /**
    Outside 0 <= n <= N the component would evaluate 0 / 0: there both the
    denominator C(N, n) and the numerator C(K, k) * C(N - K, n - k) vanish.
   */
  lemma UndefinedOutsideDeck(N: int, K: int, n: int, k: int)
    requires n < 0 || n > N
    ensures Combination(N, n) == 0
    ensures Combination(K, k) * Combination(N - K, n - k) == 0
  {
  }

  /** The number of hands with exactly k successes, as a function of k. */
  function SuccessWays(N: int, K: int, n: int): (ways: int -> int) {
    k => Combination(K, k) * Combination(N - K, n - k)
  }

  /**
    The per-card running total: Hypergeometric(N, K, n, i) summed over
    lo <= i <= hi in increasing i, 0 for an empty range.
   */
  function RangeSum(N: int, K: int, n: int, lo: int, hi: int): (s: real)
    requires 0 <= n <= N
    ensures s >= 0.0
    ensures hi < lo ==> s == 0.0
    decreases hi - lo
  {
    if hi < lo then 0.0 else RangeSum(N, K, n, lo, hi - 1) + Hypergeometric(N, K, n, hi)
  }

  /** A running total is the count of favourable hands over the count of all hands. */
  lemma {:induction false} RangeSumIsCount(N: int, K: int, n: int, lo: int, hi: int)
    requires 0 <= n <= N
    ensures RangeSum(N, K, n, lo, hi) == Sum(SuccessWays(N, K, n), lo, hi) as real / Combination(N, n) as real
    decreases hi - lo
  {
    if lo <= hi {
      RangeSumIsCount(N, K, n, lo, hi - 1);
      AddQuotients(Sum(SuccessWays(N, K, n), lo, hi - 1), SuccessWays(N, K, n)(hi), Combination(N, n));
    }
  }

  lemma AddQuotients(x: int, y: int, d: int)
    requires d >= 1
    ensures x as real / d as real + y as real / d as real == (x + y) as real / d as real
  {
  }

  /** Splitting off the first term of a non-empty running total. */
  lemma {:induction false} RangeSumFirst(N: int, K: int, n: int, lo: int, hi: int)
    requires 0 <= n <= N && lo <= hi
    ensures RangeSum(N, K, n, lo, hi) == Hypergeometric(N, K, n, lo) + RangeSum(N, K, n, lo + 1, hi)
    decreases hi - lo
  {
    if lo < hi {
      RangeSumFirst(N, K, n, lo, hi - 1);
    }
  }

  /** The probabilities of 0, 1, ..., K successes add up to exactly 1 (Vandermonde's identity). */
  lemma TotalProbability(N: int, K: int, n: int)
    requires 0 <= K <= N && 0 <= n <= N
    ensures RangeSum(N, K, n, 0, K) == 1.0
  {
    RangeSumIsCount(N, K, n, 0, K);
    AllHands(N, K, n);
    SelfQuotient(Combination(N, n));
  }

  /** Summed over every success count, the favourable hands are all C(N, n) hands. */
  lemma AllHands(N: int, K: int, n: int)
    requires 0 <= K <= N && 0 <= n <= N
    ensures Sum(SuccessWays(N, K, n), 0, K) == Combination(N, n)
  {
    forall k | 0 <= k <= K
      ensures SuccessWays(N, K, n)(k) == VandermondeTerm(K, N - K, n)(k)
    {
    }
    SumExt(SuccessWays(N, K, n), VandermondeTerm(K, N - K, n), 0, K);
    Vandermonde(K, N - K, n);
  }

  lemma SelfQuotient(d: int)
    requires d >= 1
    ensures d as real / d as real == 1.0
  {
  }

  /** Any running total over success counts within 0..K is a probability. */
  lemma RangeSumAtMostOne(N: int, K: int, n: int, lo: int, hi: int)
    requires 0 <= K <= N && 0 <= n <= N
    requires 0 <= lo && hi <= K
    ensures RangeSum(N, K, n, lo, hi) <= 1.0
  {
    var f := SuccessWays(N, K, n);
    forall k | 0 <= k <= K
      ensures f(k) >= 0
    {
      NonNegativeProduct(Combination(K, k), Combination(N - K, n - k));
    }
    SumSubRange(f, 0, K, lo, hi);
    RangeSumIsCount(N, K, n, lo, hi);
    RangeSumIsCount(N, K, n, 0, K);
    TotalProbability(N, K, n);
    QuotientMonotone(Sum(f, lo, hi), Sum(f, 0, K), Combination(N, n));
  }

  lemma NonNegativeProduct(x: nat, y: nat)
    ensures x * y >= 0
  {
  }

  lemma QuotientMonotone(x: int, y: int, d: int)
    requires d >= 1 && x <= y
    ensures x as real / d as real <= y as real / d as real
  {
  }

  /** At least one success: 1 minus the chance of none. */
  lemma AtLeastOne(N: int, K: int, n: int)
    requires 1 <= K <= N && 0 <= n <= N
    ensures RangeSum(N, K, n, 1, K) == 1.0 - Hypergeometric(N, K, n, 0)
  {
    RangeSumFirst(N, K, n, 0, K);
    TotalProbability(N, K, n);
  }

  /** With a single success card, the chance of drawing it is n / N. */
  lemma SingleCopy(N: int, n: int)
    requires 1 <= N && 0 <= n <= N
    ensures Hypergeometric(N, 1, n, 1) == n as real / N as real
  {
    assert Combination(1, 1) == 1;
    if n >= 1 {
      Absorption(N, n);
      CrossQuotient(Combination(N - 1, n - 1), n, Combination(N, n), N);
    }
  }

  /** x / d == y / e whenever x * e == y * d. */
  lemma CrossQuotient(x: int, y: int, d: int, e: int)
    requires d >= 1 && e >= 1 && x * e == y * d
    ensures x as real / d as real == y as real / e as real
  {
    assert (x * e) as real == (y * d) as real;
  }

  /**
    Exchanging the number of success cards with the hand size leaves the
    distribution unchanged: Hypergeometric(N, K, n, k) == Hypergeometric(N, n, K, k).
   */
  lemma Symmetry(N: int, K: int, n: int, k: int)
    requires 0 <= K <= N && 0 <= n <= N
    ensures Hypergeometric(N, K, n, k) == Hypergeometric(N, n, K, k)
  {
    var left := Combination(K, k) * Combination(N - K, n - k);
    var right := Combination(n, k) * Combination(N - n, K - k);
    SymmetryCount(N, K, n, k);
    CrossQuotient(left, right, Combination(N, n), Combination(N, K));
  }

  /** The counting identity behind Symmetry. */
  lemma SymmetryCount(N: int, K: int, n: int, k: int)
    requires 0 <= K <= N && 0 <= n <= N
    ensures Combination(K, k) * Combination(N - K, n - k) * Combination(N, K)
         == Combination(n, k) * Combination(N - n, K - k) * Combination(N, n)
  {
    if 0 <= k <= K && k <= n && n - k <= N - K {
      var a, b, c, d := Fact(k), Fact(K - k), Fact(n - k), Fact(N - K - n + k);
      FactSplit(K, k);
      FactSplit(N - K, n - k);
      FactSplit(N, K);
      FactSplit(n, k);
      FactSplit(N - n, K - k);
      FactSplit(N, n);
      assert Combination(K, k) * (a * b) == Fact(K);
      assert Combination(N - K, n - k) * (c * d) == Fact(N - K);
      assert Combination(N, K) * (Fact(K) * Fact(N - K)) == Fact(N);
      assert Combination(n, k) * (a * c) == Fact(n);
      assert Combination(N - n, K - k) * (b * d) == Fact(N - n);
      assert Combination(N, n) * (Fact(n) * Fact(N - n)) == Fact(N);
      SymmetryCancel(Combination(K, k), Combination(N - K, n - k), Combination(N, K),
                     Combination(n, k), Combination(N - n, K - k), Combination(N, n),
                     a, b, c, d, Fact(K), Fact(N - K), Fact(n), Fact(N - n), Fact(N));
    } else {
      ZeroFactor(Combination(K, k), Combination(N - K, n - k), Combination(N, K));
      ZeroFactor(Combination(n, k), Combination(N - n, K - k), Combination(N, n));
    }
  }

  lemma ZeroFactor(x: int, y: int, z: int)
    requires x == 0 || y == 0
    ensures x * y * z == 0
  {
  }

  /** Both sides of the counting identity, times k! (K-k)! (n-k)! (N-K-n+k)!, give N!. */
  lemma SymmetryCancel(x: int, y: int, z: int, u: int, v: int, w: int,
                       a: int, b: int, c: int, d: int,
                       fK: int, fNK: int, fn: int, fNn: int, f: int)
    requires a >= 1 && b >= 1 && c >= 1 && d >= 1
    requires x * (a * b) == fK && y * (c * d) == fNK && z * (fK * fNK) == f
    requires u * (a * c) == fn && v * (b * d) == fNn && w * (fn * fNn) == f
    ensures x * y * z == u * v * w
  {
    SymmetryAlgebra(x, y, z, a, b, c, d, fK, fNK, f);
    SymmetryAlgebra(u, v, w, a, c, b, d, fn, fNn, f);
    assert a * c * b * d == a * b * c * d;
    PositiveProduct(a, b);
    PositiveProduct(a * b, c);
    PositiveProduct(a * b * c, d);
    MulCancel(x * y * z, u * v * w, a * b * c * d);
  }

  /**
    If x * (a * b) == F1, y * (c * d) == F2 and z * (F1 * F2) == F, then
    (x * y * z) * (a * b * c * d) == F.
   */
  lemma SymmetryAlgebra(x: int, y: int, z: int, a: int, b: int, c: int, d: int, f1: int, f2: int, f: int)
    requires x * (a * b) == f1 && y * (c * d) == f2 && z * (f1 * f2) == f
    ensures (x * y * z) * (a * b * c * d) == f
  {
    calc {
      (x * y * z) * (a * b * c * d);
      z * ((x * (a * b)) * (y * (c * d)));
      z * (f1 * f2);
    }
  }
}
