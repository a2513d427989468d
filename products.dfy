/** Products of finite lists of reals and the facts about them that the joint chance needs. */
module Products {

  /**
    x * y. Statements about products of chances are written with Times so the
    solver treats the product as a term of its own rather than as nonlinear
    arithmetic; TimesIs turns it back into x * y.
   */
  function Times(x: real, y: real): (z: real) {
    x * y
  }

  lemma TimesIs(x: real, y: real)
    ensures Times(x, y) == x * y
  {
  }

  /** The product of the list, from left to right, starting from 1. */
  function Product(ps: seq<real>): (p: real)
    decreases |ps|
  {
    if ps == [] then 1.0 else Times(Product(ps[..|ps| - 1]), ps[|ps| - 1])
  }

  /** p takes values in [0, 1]. */
  predicate IsChance(p: real) {
    0.0 <= p <= 1.0
  }

  /** Appending one factor multiplies the product by it. */
  lemma ProductSnoc(ps: seq<real>, p: real)
    ensures Product(ps + [p]) == Times(Product(ps), p)
  {
    assert (ps + [p])[..|ps|] == ps;
  }

  /** The product of a concatenation is the product of the two products. */
  lemma {:induction false} ProductAppend(a: seq<real>, b: seq<real>)
    ensures Product(a + b) == Times(Product(a), Product(b))
    decreases |b|
  {
    if b == [] {
      assert a + b == a;
    } else {
      var b', x := b[..|b| - 1], b[|b| - 1];
      assert (a + b)[..|a + b| - 1] == a + b';
      assert (a + b)[|a + b| - 1] == x;
      ProductAppend(a, b');
      assert (Product(a) * Product(b')) * x == Product(a) * (Product(b') * x);
    }
  }

  lemma {:induction false} ProductNonNegative(ps: seq<real>)
    requires forall i :: 0 <= i < |ps| ==> ps[i] >= 0.0
    ensures Product(ps) >= 0.0
    decreases |ps|
  {
    if ps != [] {
      ProductNonNegative(ps[..|ps| - 1]);
    }
  }

  /** A product of chances is a chance. */
  lemma {:induction false} ProductOfChances(ps: seq<real>)
    requires forall i :: 0 <= i < |ps| ==> IsChance(ps[i])
    ensures IsChance(Product(ps))
    decreases |ps|
  {
    if ps != [] {
      ProductOfChances(ps[..|ps| - 1]);
      BoundedProduct(Product(ps[..|ps| - 1]), ps[|ps| - 1]);
    }
  }

  lemma ProductOfChancesWhen(ps: seq<real>, bounded: bool)
    requires bounded ==> forall i :: 0 <= i < |ps| ==> IsChance(ps[i])
    ensures bounded ==> IsChance(Product(ps))
  {
    if bounded {
      ProductOfChances(ps);
    }
  }

  lemma BoundedProduct(x: real, y: real)
    requires IsChance(x) && IsChance(y)
    ensures IsChance(x * y)
  {
    MulNonNegative(x, y);
    MulNonNegative(x, 1.0 - y);
    assert x * (1.0 - y) == x - x * y;
  }

  lemma MulNonNegative(x: real, y: real)
    requires x >= 0.0 && y >= 0.0
    ensures x * y >= 0.0
  {
  }

  /** One zero factor makes the product zero. */
  lemma ProductZero(ps: seq<real>, i: int)
    requires 0 <= i < |ps| && ps[i] == 0.0
    ensures Product(ps) == 0.0
  {
    assert ps == (ps[..i] + [ps[i]]) + ps[i + 1..];
    ProductAppend(ps[..i] + [ps[i]], ps[i + 1..]);
    ProductSnoc(ps[..i], ps[i]);
  }

  /** Reordering the factors does not change the product. */
  lemma {:induction false} ProductPermutation(a: seq<real>, b: seq<real>)
    requires multiset(a) == multiset(b)
    ensures Product(a) == Product(b)
    decreases |a|
  {
    if a == [] {
      assert |b| == |multiset(b)| == 0;
    } else {
      var a', x := a[..|a| - 1], a[|a| - 1];
      assert a == a' + [x];
      var pre, post := RemoveOne(a', x, b);
      ProductPermutation(a', pre + post);
      ProductAppend(pre + [x], post);
      ProductAppend(pre, post);
      ProductSnoc(pre, x);
      Rearrange(Product(pre), x, Product(post));
      assert Times(Product(pre + [x]), Product(post)) == Times(Times(Product(pre), x), Product(post));
    }
  }

  /** If a' + [x] is a permutation of b, then b is pre + [x] + post with a' a permutation of pre + post. */
  lemma RemoveOne<T>(a': seq<T>, x: T, b: seq<T>) returns (pre: seq<T>, post: seq<T>)
    requires multiset(a' + [x]) == multiset(b)
    ensures b == (pre + [x]) + post
    ensures multiset(a') == multiset(pre + post)
  {
    assert x in multiset(a' + [x]);
    var i :| 0 <= i < |b| && b[i] == x;
    pre, post := b[..i], b[i + 1..];
    assert b == (pre + [x]) + post;
    calc {
      multiset(a');
      multiset(a' + [x]) - multiset{x};
      multiset(b) - multiset{x};
      multiset(pre + [x] + post) - multiset{x};
      multiset(pre + post);
    }
  }

  lemma Rearrange(x: real, y: real, z: real)
    ensures (x * y) * z == (x * z) * y
  {
  }
}
