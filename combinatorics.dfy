/**
  Exact integer combinatorics behind the calculator: factorials, binomial
  coefficients and finite sums over integer ranges.

  The component computes these in double precision; here they are exact
  (`int`/`nat`), so `Combination` is the true binomial coefficient and the
  division in it is shown to be exact.
 */
module Combinatorics {

  /** n!, where every n <= 1 (negative n included) gives 1, as the loop does. */
  function Fact(n: int): (r: nat)
    ensures r >= 1
    decreases n
  {
    if n <= 1 then 1 else n * Fact(n - 1)
  }

  /** The factorial loop: 1 for n <= 1, otherwise the running product 2 * 3 * ... * n. */
  method Factorial(n: int) returns (result: int)
    ensures result == Fact(n)
    ensures n <= 1 ==> result == 1
    ensures n >= 2 ==> result == n * Fact(n - 1)
  {
    if n <= 1 {
      return 1;
    }
    result := 1;
    for i := 2 to n + 1
      invariant result == Fact(i - 1)
    {
      result := result * i;
    }
  }

  /** Reference definition of "n choose r" by Pascal's rule; 0 outside 0 <= r <= n. */
  function Choose(n: int, r: int): (c: nat)
    decreases n
  {
    if r < 0 || r > n then 0
    else if r == 0 || r == n then 1
    else Choose(n - 1, r - 1) + Choose(n - 1, r)
  }

  /** For n >= 1 Pascal's rule holds for every r, also at and beyond the edges. */
  lemma Pascal(n: int, r: int)
    requires n >= 1
    ensures Choose(n, r) == Choose(n - 1, r - 1) + Choose(n - 1, r)
  {
  }

  lemma ChoosePositive(n: int, r: int)
    requires 0 <= r <= n
    ensures Choose(n, r) >= 1
  {
  }

  /** The factorial formula: Choose(n, r) * r! * (n - r)! == n!. */
  lemma {:induction false} FactSplit(n: int, r: int)
    requires 0 <= r <= n
    ensures Choose(n, r) * (Fact(r) * Fact(n - r)) == Fact(n)
    decreases n
  {
    if r == 0 || r == n {
      assert Fact(0) == 1;
    } else {
      FactSplit(n - 1, r - 1);
      FactSplit(n - 1, r);
      var fr, fs := Fact(r - 1), Fact(n - r - 1);
      assert Fact(r) == r * fr;
      assert Fact(n - r) == (n - r) * fs;
      SplitAlgebra(Choose(n - 1, r - 1), Choose(n - 1, r), r, n - r, fr, fs, Fact(n - 1));
    }
  }

  /** The ring identity behind one step of FactSplit. */
  lemma SplitAlgebra(a: int, b: int, r: int, s: int, fr: int, fs: int, f: int)
    requires a * (fr * (s * fs)) == f
    requires b * ((r * fr) * fs) == f
    ensures (a + b) * ((r * fr) * (s * fs)) == (r + s) * f
  {
    var x := a * (fr * (s * fs));
    var y := b * ((r * fr) * fs);
    calc {
      (a + b) * ((r * fr) * (s * fs));
      r * x + s * y;
      r * f + s * f;
      (r + s) * f;
    }
  }

  lemma MulAtLeast(d: int, u: int)
    requires d > 0 && u >= 1
    ensures d * u >= d
  {
  }

  /** Exact quotient: (q * d) / d == q for d > 0. */
  lemma DivExact(q: int, d: int)
    requires d > 0
    ensures (q * d) / d == q
  {
    var x := q * d;
    var t, m := x / d, x % d;
    assert x == d * t + m && 0 <= m < d;
    assert d * (q - t) == m;
    if q - t >= 1 {
      MulAtLeast(d, q - t);
    } else if q - t <= -1 {
      MulAtLeast(d, t - q);
    }
  }

  lemma MulCancel(x: int, y: int, p: int)
    requires p > 0 && x * p == y * p
    ensures x == y
  {
    assert (x - y) * p == 0;
  }

  /**
    The component's `combination(n, r)`: 0 when r < 0 or r > n, otherwise
    n! / (r! * (n - r)!). The division is exact and the value is the number
    of r-element subsets of an n-element set.
   */
  function Combination(n: int, r: int): (c: nat)
    ensures r < 0 || r > n ==> c == 0
    ensures 0 <= r <= n ==> c >= 1
    ensures c == Choose(n, r)
  {
    if r < 0 || r > n then 0
    else
      FactSplit(n, r);
      DivExact(Choose(n, r), Fact(r) * Fact(n - r));
      Fact(n) / (Fact(r) * Fact(n - r))
  }

  /** The edge values of the binomial coefficient. */
  lemma CombinationEdges(n: int)
    requires n >= 0
    ensures Combination(n, 0) == 1 && Combination(n, n) == 1
  {
  }

  /** Absorption: r * C(n, r) == n * C(n - 1, r - 1). */
  lemma Absorption(n: int, r: int)
    requires 1 <= r <= n
    ensures r * Combination(n, r) == n * Combination(n - 1, r - 1)
  {
    var c, c1 := Combination(n, r), Combination(n - 1, r - 1);
    var fr, fs := Fact(r - 1), Fact(n - r);
    FactSplit(n, r);
    FactSplit(n - 1, r - 1);
    assert Fact(r) == r * fr;
    assert Fact(n) == n * Fact(n - 1);
    AbsorptionAlgebra(c, c1, r, n, fr, fs, Fact(n - 1));
    MulCancel(r * c, n * c1, fr * fs);
  }

  lemma AbsorptionAlgebra(c: int, c1: int, r: int, n: int, fr: int, fs: int, f: int)
    requires c * ((r * fr) * fs) == n * f
    requires c1 * (fr * fs) == f
    ensures (r * c) * (fr * fs) == (n * c1) * (fr * fs)
  {
  }

  /** sum_{k = lo}^{hi} f(k), 0 over an empty range. */
  function Sum(f: int -> int, lo: int, hi: int): (s: int)
    decreases hi - lo
  {
    if hi < lo then 0 else Sum(f, lo, hi - 1) + f(hi)
  }

  lemma {:induction false} SumExt(f: int -> int, g: int -> int, lo: int, hi: int)
    requires forall k :: lo <= k <= hi ==> f(k) == g(k)
    ensures Sum(f, lo, hi) == Sum(g, lo, hi)
    decreases hi - lo
  {
    if lo <= hi {
      SumExt(f, g, lo, hi - 1);
    }
  }

  lemma {:induction false} SumAdd(f: int -> int, g: int -> int, h: int -> int, lo: int, hi: int)
    requires forall k :: lo <= k <= hi ==> f(k) == g(k) + h(k)
    ensures Sum(f, lo, hi) == Sum(g, lo, hi) + Sum(h, lo, hi)
    decreases hi - lo
  {
    if lo <= hi {
      SumAdd(f, g, h, lo, hi - 1);
    }
  }

  lemma {:induction false} SumFirst(f: int -> int, lo: int, hi: int)
    requires lo <= hi
    ensures Sum(f, lo, hi) == f(lo) + Sum(f, lo + 1, hi)
    decreases hi - lo
  {
    if lo < hi {
      SumFirst(f, lo, hi - 1);
    }
  }

  lemma {:induction false} SumShift(f: int -> int, g: int -> int, lo: int, hi: int)
    requires forall k :: lo <= k <= hi ==> g(k) == f(k + 1)
    ensures Sum(g, lo, hi) == Sum(f, lo + 1, hi + 1)
    decreases hi - lo
  {
    if lo <= hi {
      SumShift(f, g, lo, hi - 1);
    }
  }

  lemma {:induction false} SumNonNegative(f: int -> int, lo: int, hi: int)
    requires forall k :: lo <= k <= hi ==> f(k) >= 0
    ensures Sum(f, lo, hi) >= 0
    decreases hi - lo
  {
    if lo <= hi {
      SumNonNegative(f, lo, hi - 1);
    }
  }

  /** Over non-negative terms, a sub-range sums to no more than the whole range. */
  lemma {:induction false} SumSubRange(f: int -> int, lo: int, hi: int, lo': int, hi': int)
    requires forall k :: lo <= k <= hi ==> f(k) >= 0
    requires lo <= lo' && hi' <= hi
    ensures Sum(f, lo', hi') <= Sum(f, lo, hi)
    decreases hi - lo
  {
    if hi' < lo' {
      SumNonNegative(f, lo, hi);
    } else if hi' < hi {
      SumSubRange(f, lo, hi - 1, lo', hi');
    } else if lo < lo' {
      SumFirst(f, lo, hi);
      SumSubRange(f, lo + 1, hi, lo', hi');
    }
  }

  /** The k-th term of Vandermonde's sum: C(a, k) * C(m, n - k). */
  function VandermondeTerm(a: int, m: int, n: int): (t: int -> int) {
    k => Choose(a, k) * Choose(m, n - k)
  }

  /** C(a - 1, k - 1) * C(m, n - k): the part of the k-th term that contains a fixed item. */
  function WithItemTerm(a: int, m: int, n: int): (t: int -> int) {
    k => Choose(a - 1, k - 1) * Choose(m, n - k)
  }

  /** Pascal's rule splits every term of Vandermonde's sum for a into two. */
  lemma VandermondeSplit(a: int, m: int, n: int)
    requires a >= 1
    ensures Sum(VandermondeTerm(a, m, n), 0, a)
         == Sum(WithItemTerm(a, m, n), 0, a) + Sum(VandermondeTerm(a - 1, m, n), 0, a - 1)
  {
    var f, g, h := VandermondeTerm(a, m, n), WithItemTerm(a, m, n), VandermondeTerm(a - 1, m, n);
    forall k | 0 <= k <= a
      ensures f(k) == g(k) + h(k)
    {
      Pascal(a, k);
      Distribute(Choose(a - 1, k - 1), Choose(a - 1, k), Choose(m, n - k));
    }
    SumAdd(f, g, h, 0, a);
    // The last h-term has C(a - 1, a) == 0.
    assert h(a) == 0;
  }

  /** Without its vanishing first term and shifted by one, the g-sum is Vandermonde's sum for a - 1 and n - 1. */
  lemma WithItemShift(a: int, m: int, n: int)
    requires a >= 1
    ensures Sum(WithItemTerm(a, m, n), 0, a) == Sum(VandermondeTerm(a - 1, m, n - 1), 0, a - 1)
  {
    var g := WithItemTerm(a, m, n);
    SumFirst(g, 0, a);
    assert Choose(a - 1, -1) == 0;
    assert g(0) == 0;
    SumShift(g, VandermondeTerm(a - 1, m, n - 1), 0, a - 1);
  }

  /**
    Vandermonde's identity: choosing n from a + m items, split by how many
    come from the first a, gives sum_{k=0}^{a} C(a, k) * C(m, n - k) == C(a + m, n).
   */
  lemma {:induction false} Vandermonde(a: int, m: int, n: int)
    requires a >= 0 && m >= 0
    ensures Sum(VandermondeTerm(a, m, n), 0, a) == Choose(a + m, n)
    decreases a
  {
    if a == 0 {
      var f := VandermondeTerm(a, m, n);
      assert Sum(f, 0, 0) == f(0);
    } else {
      VandermondeSplit(a, m, n);
      WithItemShift(a, m, n);
      Vandermonde(a - 1, m, n);
      Vandermonde(a - 1, m, n - 1);
      Pascal(a + m, n);
    }
  }

  lemma Distribute(x: int, y: int, z: int)
    ensures (x + y) * z == x * z + y * z
  {
  }
}
