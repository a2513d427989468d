/**
  The probability engine of the calculator: each card target's chance of
  landing between its minimum and maximum number of copies in the opening
  hand, and the joint chance, taken as the product of the per-card chances.

  The cards are treated as independent on purpose, exactly as the component
  does; this is not the multivariate hypergeometric distribution.
 */
module Probability {
  import opened Combinatorics
  import opened Distribution
  import opened Normalize
  import opened Products

  /**
    One card target: how many copies are in the deck and the least and most
    copies wanted in hand. The name is a label and never enters the computation.
   */
  datatype Card = Card(name: string, copies: int, min: int, max: int)

  /** The number of copies the computation uses: copies clamped into 1..3. */
  function CopiesUsed(c: Card): (k: int)
    ensures MIN_COPIES <= k <= MAX_COPIES
    ensures MIN_COPIES <= c.copies <= MAX_COPIES ==> k == c.copies
    ensures c.copies < MIN_COPIES ==> k == MIN_COPIES
    ensures c.copies > MAX_COPIES ==> k == MAX_COPIES
  {
    ClampCopies(c.copies)
  }

  /** The least success count summed over: the minimum raised to 0. */
  function LowestCount(c: Card): (lo: int)
    ensures lo >= 0 && lo >= c.min
    ensures c.min >= 0 ==> lo == c.min
    ensures c.min < 0 ==> lo == 0
  {
    Max(0, c.min)
  }

  /** The greatest success count summed over: the maximum lowered to the copies used. */
  function HighestCount(c: Card): (hi: int)
    ensures hi <= CopiesUsed(c) && hi <= c.max
    ensures c.max <= CopiesUsed(c) ==> hi == c.max
    ensures c.max > CopiesUsed(c) ==> hi == CopiesUsed(c)
  {
    Min(CopiesUsed(c), c.max)
  }

  /** The number of hands that meet a card's range: those with LowestCount(c) to HighestCount(c) successes. */
  function Favourable(N: int, n: int, c: Card): (w: int) {
    Sum(SuccessWays(N, CopiesUsed(c), n), LowestCount(c), HighestCount(c))
  }

  /**
    A card's chance: its favourable hands over all C(N, n) hands.
    CardProbabilityIsRangeSum shows it is the component's per-card sum of
    hypergeometric terms.
   */
  function CardProbability(N: int, n: int, c: Card): (p: real)
    requires 0 <= n <= N
    ensures p >= 0.0
    ensures MAX_COPIES <= N ==> p <= 1.0
    ensures LowestCount(c) > HighestCount(c) ==> p == 0.0
  {
    FavourableBounds(N, n, c);
    QuotientBounds(Favourable(N, n, c), Combination(N, n));
    Favourable(N, n, c) as real / Combination(N, n) as real
  }

  lemma QuotientBounds(w: int, d: int)
    requires w >= 0 && d >= 1
    ensures w as real / d as real >= 0.0
    ensures w <= d ==> w as real / d as real <= 1.0
    ensures w == d ==> w as real / d as real == 1.0
    ensures w == 0 ==> w as real / d as real == 0.0
  {
  }

  /**
    A card's chance is the running total of Hypergeometric(N, K, n, i) for i
    from LowestCount(c) to HighestCount(c), K being the clamped copies.
   */
  lemma CardProbabilityIsRangeSum(N: int, n: int, c: Card)
    requires 0 <= n <= N
    ensures CardProbability(N, n, c) == RangeSum(N, CopiesUsed(c), n, LowestCount(c), HighestCount(c))
  {
    RangeSumIsCount(N, CopiesUsed(c), n, LowestCount(c), HighestCount(c));
  }

  /** A range from 0 (or below) up to all copies (or above) is certain. */
  lemma FullRangeIsCertain(N: int, n: int, c: Card)
    requires MAX_COPIES <= N && 0 <= n <= N
    requires c.min <= 0 && c.max >= CopiesUsed(c)
    ensures CardProbability(N, n, c) == 1.0
  {
    CardProbabilityIsRangeSum(N, n, c);
    TotalProbability(N, CopiesUsed(c), n);
  }

  /** A card with one copy, wanted exactly once, shows up with chance n / N. */
  lemma SingleCopyCard(N: int, n: int, c: Card)
    requires 1 <= N && 0 <= n <= N
    requires c.copies <= 1 && c.min == 1 && c.max >= 1
    ensures CardProbability(N, n, c) == n as real / N as real
  {
    CardProbabilityIsRangeSum(N, n, c);
    assert RangeSum(N, 1, n, 1, 1) == Hypergeometric(N, 1, n, 1);
    SingleCopy(N, n);
  }

  /** Between 0 and all C(N, n) hands meet a card's range. */
  lemma FavourableBounds(N: int, n: int, c: Card)
    requires 0 <= n <= N
    ensures Favourable(N, n, c) >= 0
    ensures MAX_COPIES <= N ==> Favourable(N, n, c) <= Combination(N, n)
  {
    var K := CopiesUsed(c);
    var f := SuccessWays(N, K, n);
    forall k | LowestCount(c) <= k <= HighestCount(c)
      ensures f(k) >= 0
    {
      NonNegativeProduct(Combination(K, k), Combination(N - K, n - k));
    }
    SumNonNegative(f, LowestCount(c), HighestCount(c));
    if MAX_COPIES <= N {
      forall k | 0 <= k <= K
        ensures f(k) >= 0
      {
        NonNegativeProduct(Combination(K, k), Combination(N - K, n - k));
      }
      SumSubRange(f, 0, K, LowestCount(c), HighestCount(c));
      AllHands(N, K, n);
    }
  }

  /** The per-card chances of a card list, in list order. */
  function Chances(N: int, n: int, cards: seq<Card>): (ps: seq<real>)
    requires 0 <= n <= N
    ensures |ps| == |cards|
    ensures forall i :: 0 <= i < |cards| ==> ps[i] == CardProbability(N, n, cards[i])
    decreases |cards|
  {
    if cards == [] then []
    else Chances(N, n, cards[..|cards| - 1]) + [CardProbability(N, n, cards[|cards| - 1])]
  }

  lemma {:induction false} ChancesAppend(N: int, n: int, a: seq<Card>, b: seq<Card>)
    requires 0 <= n <= N
    ensures Chances(N, n, a + b) == Chances(N, n, a) + Chances(N, n, b)
    decreases |b|
  {
    if b == [] {
      assert a + b == a;
    } else {
      var b', x := b[..|b| - 1], b[|b| - 1];
      assert (a + b)[..|a + b| - 1] == a + b';
      assert (a + b)[|a + b| - 1] == x;
      ChancesAppend(N, n, a, b');
      assert Chances(N, n, a) + Chances(N, n, b) == (Chances(N, n, a) + Chances(N, n, b')) + [CardProbability(N, n, x)];
    }
  }

  /**
    The joint chance over the card list: the product of the per-card chances,
    in list order, starting from 1.
   */
  function JointProbability(N: int, n: int, cards: seq<Card>): (p: real)
    requires 0 <= n <= N
    ensures p >= 0.0
    ensures MAX_COPIES <= N ==> p <= 1.0
    ensures cards == [] ==> p == 1.0
  {
    var ps := Chances(N, n, cards);
    ProductNonNegative(ps);
    ProductOfChancesWhen(ps, MAX_COPIES <= N);
    Product(ps)
  }

  /** Appending a card multiplies the joint chance by that card's chance. */
  lemma JointSnoc(N: int, n: int, cards: seq<Card>, c: Card)
    requires 0 <= n <= N
    ensures JointProbability(N, n, cards + [c]) == Times(JointProbability(N, n, cards), CardProbability(N, n, c))
  {
    assert (cards + [c])[..|cards|] == cards;
    ProductSnoc(Chances(N, n, cards), CardProbability(N, n, c));
  }

  /** In a deck of at least 3 cards, adding a card never raises the joint chance. */
  lemma JointNonIncreasing(N: int, n: int, cards: seq<Card>, c: Card)
    requires MAX_COPIES <= N && 0 <= n <= N
    ensures JointProbability(N, n, cards + [c]) <= JointProbability(N, n, cards)
  {
    JointSnoc(N, n, cards, c);
    TimesAtMost(JointProbability(N, n, cards), CardProbability(N, n, c));
  }

  lemma TimesAtMost(x: real, y: real)
    requires x >= 0.0 && 0.0 <= y <= 1.0
    ensures Times(x, y) <= x
  {
    MulNonNegative(x, 1.0 - y);
    assert x * (1.0 - y) == x - x * y;
  }

  /** With one card the joint chance is that card's chance. */
  lemma JointSingle(N: int, n: int, c: Card)
    requires 0 <= n <= N
    ensures JointProbability(N, n, [c]) == CardProbability(N, n, c)
  {
    JointSnoc(N, n, [], c);
    assert [] + [c] == [c];
    TimesOne(JointProbability(N, n, []), CardProbability(N, n, c));
  }

  lemma TimesOne(one: real, y: real)
    requires one == 1.0
    ensures Times(one, y) == y
  {
  }

  /** The joint chance of two card lists put together is the product of their joint chances. */
  lemma JointAppend(N: int, n: int, a: seq<Card>, b: seq<Card>)
    requires 0 <= n <= N
    ensures JointProbability(N, n, a + b) == Times(JointProbability(N, n, a), JointProbability(N, n, b))
  {
    ChancesAppend(N, n, a, b);
    ProductAppend(Chances(N, n, a), Chances(N, n, b));
  }

  /** A card whose clamped range is empty (minimum above maximum) makes the joint chance 0. */
  lemma JointVanishes(N: int, n: int, cards: seq<Card>, i: int)
    requires 0 <= n <= N
    requires 0 <= i < |cards| && LowestCount(cards[i]) > HighestCount(cards[i])
    ensures JointProbability(N, n, cards) == 0.0
  {
    ProductZero(Chances(N, n, cards), i);
  }

  /** The order of the cards does not change the joint chance. */
  lemma JointOrderIndependent(N: int, n: int, a: seq<Card>, b: seq<Card>)
    requires 0 <= n <= N
    requires multiset(a) == multiset(b)
    ensures JointProbability(N, n, a) == JointProbability(N, n, b)
  {
    ChancesPermutation(N, n, a, b);
    ProductPermutation(Chances(N, n, a), Chances(N, n, b));
  }

  /** Reordering the cards reorders their chances. */
  lemma {:induction false} ChancesPermutation(N: int, n: int, a: seq<Card>, b: seq<Card>)
    requires 0 <= n <= N
    requires multiset(a) == multiset(b)
    ensures multiset(Chances(N, n, a)) == multiset(Chances(N, n, b))
    decreases |a|
  {
    if a == [] {
      assert |b| == |multiset(b)| == 0;
    } else {
      var a', x := a[..|a| - 1], a[|a| - 1];
      assert a == a' + [x];
      var pre, post := RemoveOne(a', x, b);
      ChancesPermutation(N, n, a', pre + post);
      ChancesAppend(N, n, a', [x]);
      ChancesAppend(N, n, pre + [x], post);
      ChancesAppend(N, n, pre, [x]);
      ChancesAppend(N, n, pre, post);
    }
  }

  /**
    The inner loop of the recalculation: Hypergeometric(N, K, n, i) added up
    for i = min, min + 1, ..., max, starting from 0.
   */
  method SumRange(N: int, K: int, n: int, min: int, max: int) returns (cardProbability: real)
    requires 0 <= n <= N
    ensures cardProbability == RangeSum(N, K, n, min, max)
  {
    cardProbability := 0.0;
    var i := min;
    while i <= max
      invariant min <= i && (i <= max + 1 || i == min)
      invariant cardProbability == RangeSum(N, K, n, min, i - 1)
      decreases max - i
    {
      cardProbability := cardProbability + Hypergeometric(N, K, n, i);
      i := i + 1;
    }
  }

  /**
    The component's recalculation: for every card, add up the hypergeometric
    terms for i from the clamped minimum to the clamped maximum, and multiply
    the per-card sums into a running product that starts at 1.
   */
  method ComputeJointProbability(deckSize: int, handSize: int, cards: seq<Card>) returns (finalProbability: real)
    requires 0 <= handSize <= deckSize
    ensures finalProbability == JointProbability(deckSize, handSize, cards)
  {
    var N, n := deckSize, handSize;
    finalProbability := 1.0;
    for j := 0 to |cards|
      invariant finalProbability == JointProbability(N, n, cards[..j])
    {
      var card := cards[j];
      var K := ClampCopies(card.copies);
      var min := Max(0, card.min);
      var max := Min(K, card.max);
      var cardProbability := SumRange(N, K, n, min, max);
      assert cards[..j + 1] == cards[..j] + [card];
      CardStep(N, n, cards[..j], card, finalProbability, cardProbability);
      finalProbability := finalProbability * cardProbability;
    }
    assert cards[..|cards|] == cards;
  }

  /**
    One pass of the outer loop: the running product times the card's sum over
    its clamped range is the joint chance of the list extended by that card.
   */
  lemma CardStep(N: int, n: int, prefix: seq<Card>, card: Card, soFar: real, cardSum: real)
    requires 0 <= n <= N
    requires soFar == JointProbability(N, n, prefix)
    requires cardSum == RangeSum(N, ClampCopies(card.copies), n, Max(0, card.min), Min(ClampCopies(card.copies), card.max))
    ensures soFar * cardSum == JointProbability(N, n, prefix + [card])
  {
    CardProbabilityIsRangeSum(N, n, card);
    JointSnoc(N, n, prefix, card);
    TimesIs(soFar, cardSum);
  }
}
