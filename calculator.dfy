/**
  The calculator's state and its handlers: the deck size and its input text,
  the hand size, the card list, the remaining-cards count and the displayed
  probability. The two recomputations the component runs after a change of
  state are the explicit method Refresh.
 */
module CalculatorState {
  import opened Probability
  import opened Products
  import opened Distribution
  import opened Normalize

  datatype Option<T> = None | Some(value: T)

  /** The numeric card fields the card editor can change. */
  datatype Field = CopiesField | MinField | MaxField

  /** The card a click on "+" appends: no name, 3 copies, wanted 1 to 3 times. */
  const DEFAULT_CARD := Card("", 3, 1, 3)

  /** The card list the calculator starts with. */
  const INITIAL_CARDS := [Card("Thunder Dragon", 3, 1, 3)]

  /** The card with field f set to v; the name and the other two fields are kept. */
  function WithField(c: Card, f: Field, v: int): (d: Card)
    ensures d.name == c.name
    ensures d.copies == (if f == CopiesField then v else c.copies)
    ensures d.min == (if f == MinField then v else c.min)
    ensures d.max == (if f == MaxField then v else c.max)
  {
    match f
    case CopiesField => c.(copies := v)
    case MinField => c.(min := v)
    case MaxField => c.(max := v)
  }

  /**
    The position that `splice(index, 1)` removes: a negative index counts from
    the end (and is raised to 0), an index at or past the end removes nothing.
   */
  function SpliceStart(length: int, index: int): (k: int)
    ensures 0 <= k
    ensures 0 <= index ==> k == index
    ensures index < 0 && 0 <= length + index ==> k == length + index
    ensures index < 0 && length + index < 0 ==> k == 0
  {
    if index < 0 then Max(length + index, 0) else index
  }

  /**
    The list after `splice(index, 1)`: when the splice position k is inside
    the list, exactly element k is gone and the others keep their order;
    otherwise the list is unchanged.
   */
  function SpliceOne<T>(s: seq<T>, index: int): (r: seq<T>)
    ensures var k := SpliceStart(|s|, index);
      k < |s| ==>
        && |r| == |s| - 1
        && (forall i :: 0 <= i < k ==> r[i] == s[i])
        && (forall i :: k <= i < |r| ==> r[i] == s[i + 1])
        && multiset(r) + multiset{s[k]} == multiset(s)
    ensures SpliceStart(|s|, index) >= |s| ==> r == s
  {
    var k := SpliceStart(|s|, index);
    if k < |s| then
      assert s == s[..k] + [s[k]] + s[k + 1..];
      s[..k] + s[k + 1..]
    else s
  }

  /** The remaining-cards count: the cards left in the deck after the opening hand. */
  function Remaining(deckSize: int, handSize: int): (r: int)
    ensures r + handSize == deckSize
  {
    deckSize - handSize
  }

  /** For a clamped deck size and hand size the remaining count lies in 34..59. */
  lemma RemainingBounds(deckSize: int, handSize: int)
    requires MIN_DECK_SIZE <= deckSize <= MAX_DECK_SIZE
    requires MIN_HAND_SIZE <= handSize <= MAX_HAND_SIZE
    ensures 34 <= Remaining(deckSize, handSize) <= 59
    ensures Remaining(deckSize, handSize) == 34 <==> deckSize == MIN_DECK_SIZE && handSize == MAX_HAND_SIZE
    ensures Remaining(deckSize, handSize) == 59 <==> deckSize == MAX_DECK_SIZE && handSize == MIN_HAND_SIZE
  {
  }

  class Calculator {
    var deckSize: int
    var handSize: int
    var cards: seq<Card>
    var deckSizeInput: string
    var remainingCards: int
    /** The displayed percentage; None until the first recomputation. */
    var probability: Option<real>

    /** The deck size and the hand size stay in their clamped ranges. */
    ghost predicate Valid()
      reads this
    {
      MIN_DECK_SIZE <= deckSize <= MAX_DECK_SIZE && MIN_HAND_SIZE <= handSize <= MAX_HAND_SIZE
    }

    /** The initial state: 40 cards, a hand of 6, one Thunder Dragon target, nothing computed yet. */
    constructor()
      ensures Valid()
      ensures deckSize == 40 && handSize == 6 && cards == INITIAL_CARDS
      ensures deckSizeInput == "40" && remainingCards == 40 && probability == None
    {
      deckSize := 40;
      handSize := 6;
      cards := INITIAL_CARDS;
      deckSizeInput := "40";
      remainingCards := 40;
      probability := None;
    }

    /**
      The two recomputations: the remaining count, when both sizes are
      non-zero, and the percentage 100 * (joint chance) from the loop.
     */
    method Refresh()
      requires Valid()
      modifies this
      ensures deckSize == old(deckSize) && handSize == old(handSize) && cards == old(cards)
      ensures deckSizeInput == old(deckSizeInput)
      ensures Valid()
      ensures remainingCards == Remaining(deckSize, handSize)
      ensures probability == Some(JointProbability(deckSize, handSize, cards) * 100.0)
    {
      var finalProbability := ComputeJointProbability(deckSize, handSize, cards);
      if deckSize != 0 && handSize != 0 {
        remainingCards := deckSize - handSize;
      }
      probability := Some(finalProbability * 100.0);
    }

    /**
      A new deck-size text. Empty text is only shown; otherwise it is shown
      and, when it parses (parsed is its parseInt value), the deck size
      becomes the parsed value clamped into 40..60.
     */
    method HandleDeckSizeChange(value: string, parsed: Option<int>)
      requires Valid()
      modifies this
      ensures Valid()
      ensures deckSizeInput == value
      ensures value != "" && parsed.Some? ==> deckSize == ClampDeckSize(parsed.value)
      ensures value == "" || parsed.None? ==> deckSize == old(deckSize)
      ensures handSize == old(handSize) && cards == old(cards)
      ensures remainingCards == old(remainingCards) && probability == old(probability)
    {
      if value == "" {
        deckSizeInput := "";
      } else {
        deckSizeInput := value;
        if parsed.Some? {
          var parsedValue := parsed.value;
          if parsedValue < 40 {
            deckSize := 40;
          } else if parsedValue > 60 {
            deckSize := 60;
          } else {
            deckSize := parsedValue;
          }
        }
      }
    }

    /** A new hand size: raised to 1, then lowered to 6. */
    method HandleHandSizeChange(newValue: int)
      requires Valid()
      modifies this
      ensures Valid()
      ensures handSize == ClampHandSize(newValue)
      ensures deckSize == old(deckSize) && cards == old(cards) && deckSizeInput == old(deckSizeInput)
      ensures remainingCards == old(remainingCards) && probability == old(probability)
    {
      var newHandSize := newValue;
      if newHandSize < 1 {
        newHandSize := 1;
      }
      if newHandSize > 6 {
        newHandSize := 6;
      }
      handSize := newHandSize;
    }

    /** Appends the default card and keeps the existing cards. */
    method AddCard()
      requires Valid()
      modifies this
      ensures Valid()
      ensures cards == old(cards) + [DEFAULT_CARD]
      ensures deckSize == old(deckSize) && handSize == old(handSize) && deckSizeInput == old(deckSizeInput)
      ensures remainingCards == old(remainingCards) && probability == old(probability)
    {
      cards := cards + [DEFAULT_CARD];
    }

    /** Removes the card at index with the semantics of `splice(index, 1)`. */
    method RemoveCard(index: int)
      requires Valid()
      modifies this
      ensures Valid()
      ensures cards == SpliceOne(old(cards), index)
      ensures deckSize == old(deckSize) && handSize == old(handSize) && deckSizeInput == old(deckSizeInput)
      ensures remainingCards == old(remainingCards) && probability == old(probability)
    {
      var newCards := cards;
      newCards := SpliceOne(newCards, index);
      cards := newCards;
    }

    /** Sets one numeric field of the card at index; every other card and field is kept. */
    method HandleCardChange(index: int, field: Field, value: int)
      requires Valid()
      requires 0 <= index < |cards|
      modifies this
      ensures Valid()
      ensures cards == old(cards)[index := WithField(old(cards)[index], field, value)]
      ensures deckSize == old(deckSize) && handSize == old(handSize) && deckSizeInput == old(deckSizeInput)
      ensures remainingCards == old(remainingCards) && probability == old(probability)
    {
      var newCards := cards;
      newCards := newCards[index := WithField(newCards[index], field, value)];
      cards := newCards;
    }

    /** Renames the card at index; every other card and field is kept. */
    method HandleNameChange(index: int, value: string)
      requires Valid()
      requires 0 <= index < |cards|
      modifies this
      ensures Valid()
      ensures cards == old(cards)[index := old(cards)[index].(name := value)]
      ensures deckSize == old(deckSize) && handSize == old(handSize) && deckSizeInput == old(deckSizeInput)
      ensures remainingCards == old(remainingCards) && probability == old(probability)
    {
      var newCards := cards;
      newCards := newCards[index := newCards[index].(name := value)];
      cards := newCards;
    }
  }

  /** For a clamped deck size and hand size the displayed percentage lies in 0..100. */
  lemma PercentageBounds(deckSize: int, handSize: int, cards: seq<Card>)
    requires MIN_DECK_SIZE <= deckSize <= MAX_DECK_SIZE
    requires MIN_HAND_SIZE <= handSize <= MAX_HAND_SIZE
    ensures 0.0 <= JointProbability(deckSize, handSize, cards) * 100.0 <= 100.0
  {
  }

  /** Adding the default card multiplies the joint chance by the chance of drawing at least one of its 3 copies. */
  lemma JointAfterAdd(N: int, n: int, cards: seq<Card>)
    requires MAX_COPIES <= N && 0 <= n <= N
    ensures JointProbability(N, n, cards + [DEFAULT_CARD]) == Times(JointProbability(N, n, cards), 1.0 - Hypergeometric(N, 3, n, 0))
  {
    JointSnoc(N, n, cards, DEFAULT_CARD);
    DefaultCardProbability(N, n);
  }

  /** The default card (3 copies, 1 to 3 wanted) has the chance of drawing at least one of 3 copies. */
  lemma DefaultCardProbability(N: int, n: int)
    requires MAX_COPIES <= N && 0 <= n <= N
    ensures CardProbability(N, n, DEFAULT_CARD) == 1.0 - Hypergeometric(N, 3, n, 0)
  {
    CardProbabilityIsRangeSum(N, n, DEFAULT_CARD);
    AtLeastOne(N, 3, n);
  }

  /**
    Removing the card at the splice position k divides it out of the joint
    chance: what is left, times its chance, is the old joint chance. This
    holds for every index whose splice position is inside the list,
    negative ones counted from the end included.
   */
  lemma JointAfterRemove(N: int, n: int, cards: seq<Card>, index: int)
    requires 0 <= n <= N
    requires SpliceStart(|cards|, index) < |cards|
    ensures var k := SpliceStart(|cards|, index);
      JointProbability(N, n, cards) == Times(JointProbability(N, n, SpliceOne(cards, index)), CardProbability(N, n, cards[k]))
  {
    var k := SpliceStart(|cards|, index);
    var rest := SpliceOne(cards, index);
    assert multiset(rest) + multiset{cards[k]} == multiset(cards);
    assert multiset(rest + [cards[k]]) == multiset(cards);
    JointOrderIndependent(N, n, rest + [cards[k]], cards);
    JointSnoc(N, n, rest, cards[k]);
  }

  /** A card's chance does not depend on its name. */
  lemma NameIrrelevant(N: int, n: int, c: Card, name: string)
    requires 0 <= n <= N
    ensures CardProbability(N, n, c.(name := name)) == CardProbability(N, n, c)
  {
    assert CopiesUsed(c.(name := name)) == CopiesUsed(c);
    assert LowestCount(c.(name := name)) == LowestCount(c);
    assert HighestCount(c.(name := name)) == HighestCount(c);
  }

  /** Renaming a card leaves the joint chance unchanged. */
  lemma JointAfterRename(N: int, n: int, cards: seq<Card>, index: int, name: string)
    requires 0 <= n <= N
    requires 0 <= index < |cards|
    ensures JointProbability(N, n, cards[index := cards[index].(name := name)]) == JointProbability(N, n, cards)
  {
    var renamed := cards[index := cards[index].(name := name)];
    NameIrrelevant(N, n, cards[index], name);
    assert Chances(N, n, renamed) == Chances(N, n, cards);
  }
}
